// Linear algebra over GF(2): sums are parities, entries are bits.
module Gf2 {

  // Parity of f(0) .. f(n-1)
  function Par(n: nat, f: int -> bool): bool {
    if n == 0 then false else Par(n - 1, f) != f(n - 1)
  }

  lemma {:induction false} ParExt(n: nat, f: int -> bool, g: int -> bool)
    requires forall k :: 0 <= k < n ==> f(k) == g(k)
    ensures Par(n, f) == Par(n, g)
  {
    if n > 0 { ParExt(n - 1, f, g); }
  }

  lemma {:induction false} ParZero(n: nat, f: int -> bool)
    requires forall k :: 0 <= k < n ==> !f(k)
    ensures !Par(n, f)
  {
    if n > 0 { ParZero(n - 1, f); }
  }

  lemma {:induction false} ParXor(n: nat, f: int -> bool, g: int -> bool, h: int -> bool)
    requires forall k :: 0 <= k < n ==> h(k) == (f(k) != g(k))
    ensures Par(n, h) == (Par(n, f) != Par(n, g))
  {
    if n > 0 { ParXor(n - 1, f, g, h); }
  }

  lemma {:induction false} ParXorFour(n: nat, a: int -> bool, b: int -> bool, c: int -> bool, d: int -> bool,
                                      h: int -> bool)
    requires forall k :: 0 <= k < n ==> h(k) == (((a(k) != b(k)) != c(k)) != d(k))
    ensures Par(n, h) == (((Par(n, a) != Par(n, b)) != Par(n, c)) != Par(n, d))
  {
    if n > 0 { ParXorFour(n - 1, a, b, c, d, h); }
  }

  lemma {:induction false} ParScale(n: nat, c: bool, f: int -> bool, h: int -> bool)
    requires forall k :: 0 <= k < n ==> h(k) == (c && f(k))
    ensures Par(n, h) == (c && Par(n, f))
  {
    if n > 0 { ParScale(n - 1, c, f, h); }
  }

  lemma {:induction false} ParSingle(n: nat, p: int, f: int -> bool)
    requires 0 <= p < n
    requires forall k :: 0 <= k < n && k != p ==> !f(k)
    ensures Par(n, f) == f(p)
  {
    if p == n - 1 { ParZero(n - 1, f); } else { ParSingle(n - 1, p, f); }
  }

  lemma {:induction false} ParSplit(m: nat, n: nat, f: int -> bool, g: int -> bool)
    requires forall k :: 0 <= k < n ==> g(k) == f(m + k)
    ensures Par(m + n, f) == (Par(m, f) != Par(n, g))
  {
    if n > 0 { ParSplit(m, n - 1, f, g); }
  }

  lemma {:induction false} ParSwap(m: nat, n: nat, f: (int, int) -> bool)
    ensures Par(m, i => Par(n, j => f(i, j))) == Par(n, j => Par(m, i => f(i, j)))
  {
    if m == 0 {
      ParZero(n, j => Par(m, i => f(i, j)));
    } else {
      ParSwap(m - 1, n, f);
      ParExt(m - 1, i => Par(n, j => f(i, j)), (i: int) => Par(n, j => f(i, j)));
      ParXor(n, j => Par(m - 1, i => f(i, j)), j => f(m - 1, j), j => Par(m, i => f(i, j)));
    }
  }

  // ---------- square bit matrices ----------

  datatype RawBits = RawBits(d: nat, e: seq<seq<bool>>)

  ghost predicate WellFormed(m: RawBits) {
    |m.e| == m.d && forall i :: 0 <= i < m.d ==> |m.e[i]| == m.d
  }

  type BMat = m: RawBits | WellFormed(m) witness RawBits(0, [])

  predicate Bit(m: BMat, i: int, j: int) {
    0 <= i < m.d && 0 <= j < m.d && m.e[i][j]
  }

  function Build(d: nat, f: (int, int) -> bool): (m: BMat)
    ensures m.d == d
    ensures forall i, j :: 0 <= i < d && 0 <= j < d ==> Bit(m, i, j) == f(i, j)
  {
    RawBits(d, seq(d, i => seq(d, j => f(i, j))))
  }

  lemma Ext(a: BMat, b: BMat)
    requires a.d == b.d
    requires forall i, j :: 0 <= i < a.d && 0 <= j < a.d ==> Bit(a, i, j) == Bit(b, i, j)
    ensures a == b
  {
    forall i | 0 <= i < a.d ensures a.e[i] == b.e[i] {
      forall j | 0 <= j < a.d ensures a.e[i][j] == b.e[i][j] {
        assert Bit(a, i, j) == Bit(b, i, j);
      }
    }
  }

  function Id(d: nat): (m: BMat)
    ensures m.d == d
  {
    Build(d, (i, j) => i == j)
  }

  function Transpose(a: BMat): (m: BMat)
    ensures m.d == a.d
  {
    Build(a.d, (i, j) => Bit(a, j, i))
  }

  function RowCol(a: BMat, b: BMat, i: int, j: int): bool {
    Par(a.d, k => Bit(a, i, k) && Bit(b, k, j))
  }

  function Dot(a: BMat, b: BMat): (m: BMat)
    ensures m.d == a.d
  {
    Build(a.d, (i, j) => RowCol(a, b, i, j))
  }

  lemma {:induction false} DotAssoc(a: BMat, b: BMat, c: BMat)
    requires a.d == b.d == c.d
    ensures Dot(Dot(a, b), c) == Dot(a, Dot(b, c))
  {
    hide Par;
    var l, r, d := Dot(Dot(a, b), c), Dot(a, Dot(b, c)), a.d;
    forall i, j | 0 <= i < d && 0 <= j < d ensures Bit(l, i, j) == Bit(r, i, j) {
      var f := (k: int, t: int) => Bit(a, i, t) && Bit(b, t, k) && Bit(c, k, j);
      forall k | 0 <= k < d ensures (Bit(Dot(a, b), i, k) && Bit(c, k, j)) == Par(d, t => f(k, t)) {
        ParScale(d, Bit(c, k, j), t => Bit(a, i, t) && Bit(b, t, k), t => f(k, t));
      }
      forall t | 0 <= t < d ensures (Bit(a, i, t) && Bit(Dot(b, c), t, j)) == Par(d, k => f(k, t)) {
        ParScale(d, Bit(a, i, t), k => Bit(b, t, k) && Bit(c, k, j), k => f(k, t));
      }
      ParExt(d, k => Bit(Dot(a, b), i, k) && Bit(c, k, j), k => Par(d, t => f(k, t)));
      ParSwap(d, d, f);
      ParExt(d, t => Bit(a, i, t) && Bit(Dot(b, c), t, j), t => Par(d, k => f(k, t)));
    }
    Ext(l, r);
  }

  lemma IdLaws(a: BMat)
    ensures Dot(Id(a.d), a) == a && Dot(a, Id(a.d)) == a
  {
    hide Par;
    var e := Id(a.d);
    forall i, j | 0 <= i < a.d && 0 <= j < a.d
      ensures Bit(Dot(e, a), i, j) == Bit(a, i, j) && Bit(Dot(a, e), i, j) == Bit(a, i, j)
    {
      ParSingle(a.d, i, k => Bit(e, i, k) && Bit(a, k, j));
      ParSingle(a.d, j, k => Bit(a, i, k) && Bit(e, k, j));
    }
    Ext(Dot(e, a), a);
    Ext(Dot(a, e), a);
  }

  lemma TransposeDot(a: BMat, b: BMat)
    requires a.d == b.d
    ensures Transpose(Dot(a, b)) == Dot(Transpose(b), Transpose(a))
  {
    hide Par;
    var l, r := Transpose(Dot(a, b)), Dot(Transpose(b), Transpose(a));
    forall i, j | 0 <= i < a.d && 0 <= j < a.d ensures Bit(l, i, j) == Bit(r, i, j) {
      ParExt(a.d, k => Bit(a, j, k) && Bit(b, k, i), k => Bit(Transpose(b), i, k) && Bit(Transpose(a), k, j));
    }
    Ext(l, r);
  }

  lemma TransposeTwice(a: BMat)
    ensures Transpose(Transpose(a)) == a
  {
    Ext(Transpose(Transpose(a)), a);
  }

  lemma TransposeId(d: nat)
    ensures Transpose(Id(d)) == Id(d)
  {
    Ext(Transpose(Id(d)), Id(d));
  }
}
