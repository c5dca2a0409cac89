/** Big-endian digit sequences: value, order, and regrouping. */
module Radix {

  function Pow(b: nat, n: nat): (r: nat)
    ensures b > 0 ==> r > 0
  {
    if n == 0 then 1 else b * Pow(b, n - 1)
  }

  predicate AreDigits(ds: seq<nat>, b: nat)
  {
    forall i :: 0 <= i < |ds| ==> ds[i] < b
  }

  function Value(ds: seq<nat>, b: nat): nat
  {
    if ds == [] then 0 else Value(ds[..|ds| - 1], b) * b + ds[|ds| - 1]
  }

  /** The two bases in use: base32 characters and bytes. */
  predicate IsBase(b: nat)
  {
    b == 32 || b == 256
  }

  /** The n lowest digits of v. */
  function Digits(v: nat, b: nat, n: nat): (ds: seq<nat>)
    requires IsBase(b)
    ensures |ds| == n && AreDigits(ds, b)
    decreases n
  {
    if n == 0 then [] else Digits(v / b, b, n - 1) + [v % b]
  }

  lemma {:induction false} MulMonotone(x: nat, y: nat, p: nat)
    requires x < y
    ensures x * p + p <= y * p
  {
    assert y * p == x * p + (y - x) * p;
    MulAtLeast(y - x, p);
  }

  lemma {:induction false} MulAtLeast(d: nat, p: nat)
    requires d >= 1
    ensures d * p >= p
  {
  }

  lemma {:induction false} PowAdd(b: nat, m: nat, n: nat)
    requires IsBase(b)
    ensures Pow(b, m + n) == Pow(b, m) * Pow(b, n)
    decreases m
  {
    if m == 0 {
    } else {
      PowAdd(b, m - 1, n);
      MulAssociates(b, Pow(b, m - 1), Pow(b, n));
    }
  }

  lemma {:induction false} MulAssociates(x: nat, y: nat, z: nat)
    ensures x * (y * z) == x * y * z
  {
  }

  lemma {:induction false} ShiftSum(x: nat, p: nat, y: nat, d: nat, b: nat)
    requires IsBase(b)
    ensures (x * p + y) * b + d == x * (b * p) + (y * b + d)
  {
    var xp := x * p;
    assert x * (p * b) == xp * b by { MulAssociates(x, p, b); }
    assert (xp + y) * b == xp * b + y * b;
  }

  lemma {:induction false} ValueAppend(a: seq<nat>, c: seq<nat>, b: nat)
    requires IsBase(b)
    ensures Value(a + c, b) == Value(a, b) * Pow(b, |c|) + Value(c, b)
  {
    if c == [] {
      assert a + c == a;
    } else {
      var n := |c| - 1;
      assert (a + c)[..|a + c| - 1] == a + c[..n];
      ValueAppend(a, c[..n], b);
      ShiftSum(Value(a, b), Pow(b, n), Value(c[..n], b), c[n], b);
    }
  }

  lemma {:induction false} ValueBound(ds: seq<nat>, b: nat)
    requires IsBase(b) && AreDigits(ds, b)
    ensures Value(ds, b) < Pow(b, |ds|)
  {
    if ds == [] {
    } else {
      ValueBound(ds[..|ds| - 1], b);
    }
  }

  predicate LexLess(a: seq<nat>, c: seq<nat>)
    requires |a| == |c|
  {
    a != [] && (a[0] < c[0] || (a[0] == c[0] && LexLess(a[1..], c[1..])))
  }

  lemma {:induction false} ValueFront(ds: seq<nat>, b: nat)
    requires IsBase(b) && ds != []
    ensures Value(ds, b) == ds[0] * Pow(b, |ds| - 1) + Value(ds[1..], b)
  {
    ValueAppend(ds[..1], ds[1..], b);
    assert ds[..1] + ds[1..] == ds && ds[..1][..0] == [];
    assert Value(ds[..1], b) == ds[0];
  }

  /** Numbers of one length compare as their digit strings do. */
  lemma {:induction false} LexIsNumeric(a: seq<nat>, c: seq<nat>, b: nat)
    requires IsBase(b) && |a| == |c| && AreDigits(a, b) && AreDigits(c, b)
    ensures LexLess(a, c) <==> Value(a, b) < Value(c, b)
    ensures a == c <==> Value(a, b) == Value(c, b)
  {
    if a == [] {
    } else {
      var p := Pow(b, |a| - 1);
      LexIsNumeric(a[1..], c[1..], b);
      ValueFront(a, b);
      ValueFront(c, b);
      ValueBound(a[1..], b);
      ValueBound(c[1..], b);
      if a[0] < c[0] {
        MulMonotone(a[0], c[0], p);
      } else if c[0] < a[0] {
        MulMonotone(c[0], a[0], p);
      } else {
        assert a == [a[0]] + a[1..] && c == [c[0]] + c[1..];
      }
    }
  }

  lemma {:induction false} DivUnique(v: nat, m: nat, k: nat, r: nat)
    requires m > 0 && r < m && v == k * m + r
    ensures v % m == r && v / m == k
  {
    var q := v / m;
    assert v == q * m + v % m;
    if q < k {
      MulMonotone(q, k, m);
    } else if k < q {
      MulMonotone(k, q, m);
    }
  }

  lemma {:induction false} ModStep(v: nat, b: nat, p: nat)
    requires IsBase(b) && p > 0
    ensures b * p > 0 && v % (b * p) == (v / b) % p * b + v % b
  {
    var q := v / b;
    var k := q / p;
    var r := q % p * b + v % b;
    assert q == k * p + q % p;
    assert k * (b * p) == k * p * b;
    assert v == k * (b * p) + r;
    DivUnique(v, b * p, k, r);
  }

  /** Digits and Value are inverse. */
  lemma {:induction false} ValueOfDigits(v: nat, b: nat, n: nat)
    requires IsBase(b)
    ensures Value(Digits(v, b, n), b) == v % Pow(b, n)
    decreases n
  {
    if n == 0 {
    } else {
      var ds := Digits(v, b, n);
      assert ds[..n - 1] == Digits(v / b, b, n - 1);
      ValueOfDigits(v / b, b, n - 1);
      ModStep(v, b, Pow(b, n - 1));
    }
  }
}
