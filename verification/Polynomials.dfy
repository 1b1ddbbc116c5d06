/** Polynomials over the field: evaluation, the root bound, interpolation. */
module Polynomials {
  import opened Galois

  /** Coefficients, lowest degree first. */
  type Poly = seq<Elem>

  function Eval(p: Poly, x: Elem): Elem {
    if p == [] then 0 else Add(p[0], Mul(x, Eval(p[1..], x)))
  }

  ghost predicate Distinct(xs: seq<Elem>) {
    forall i, j :: 0 <= i < j < |xs| ==> xs[i] != xs[j]
  }

  // ----- The root bound -----

  /** The quotient of `p` by (x - r). */
  function Quotient(p: Poly, r: Elem): (q: Poly)
    requires p != []
    ensures |q| == |p| - 1
  {
    if |p| == 1 then [] else [Eval(p[1..], r)] + Quotient(p[1..], r)
  }

  /** (x + r)(e + x q) + r e == x (e + (x + r) q): the step of synthetic division. */
  lemma DivisionStep(x: Elem, r: Elem, e: Elem, q: Elem)
    ensures Add(Mul(r, e), Mul(Add(x, r), Add(e, Mul(x, q)))) == Mul(x, Add(e, Mul(Add(x, r), q)))
  {
    hide Add, Mul;
    var s := Add(x, r);
    AddOnRight(s, e, Mul(x, q));
    AddOnLeft(x, r, e);
    AddOnRight(x, e, Mul(s, q));
    MulAssociates(s, x, q);
    MulCommutes(s, x);
    MulAssociates(x, s, q);
    var re, xe, t := Mul(r, e), Mul(x, e), Mul(x, Mul(s, q));
    AddAssoc(re, Add(xe, re), t);
    AddFacts(xe, re);
    AddAssoc(re, re, xe);
    AddFacts(re, re);
    AddFacts(xe, 0);
  }

  lemma {:induction false} Division(p: Poly, r: Elem, x: Elem)
    requires p != []
    ensures Eval(p, x) == Add(Eval(p, r), Mul(Add(x, r), Eval(Quotient(p, r), x)))
  {
    hide Add, Mul;
    var c, rest := p[0], p[1..];
    if rest == [] {
      MulOne(x);
      MulOne(r);
      MulOne(Add(x, r));
      AddFacts(Add(c, 0), 0);
    } else {
      Division(rest, r, x);
      var e, q := Eval(rest, r), Eval(Quotient(rest, r), x);
      DivisionStep(x, r, e, q);
      AddAssoc(c, Mul(r, e), Mul(Add(x, r), Add(e, Mul(x, q))));
      assert Quotient(p, r)[1..] == Quotient(rest, r);
    }
  }

  /** A polynomial with as many roots as coefficients is zero everywhere. */
  lemma {:induction false} TooManyRoots(p: Poly, roots: seq<Elem>, x: Elem)
    requires Distinct(roots) && |roots| == |p|
    requires forall i :: 0 <= i < |roots| ==> Eval(p, roots[i]) == 0
    ensures Eval(p, x) == 0
    decreases |p|
  {
    hide Add, Mul;
    if p != [] {
      var last := |roots| - 1;
      var r, q := roots[last], Quotient(p, roots[last]);
      forall i | 0 <= i < last ensures Eval(q, roots[i]) == 0 {
        Division(p, r, roots[i]);
        AddFacts(Mul(Add(roots[i], r), Eval(q, roots[i])), 0);
        AddZeroOnlyOfEqual(roots[i], r);
        NoZeroDivisors(Add(roots[i], r), Eval(q, roots[i]));
      }
      TooManyRoots(q, roots[..last], x);
      Division(p, r, x);
      MulOne(Add(x, r));
      AddFacts(0, 0);
    }
  }

  // ----- Sums and multiples -----

  function Sum(p: Poly, q: Poly): (s: Poly)
    requires |p| == |q|
    ensures |s| == |p|
  {
    seq(|p|, i requires 0 <= i < |p| => Add(p[i], q[i]))
  }

  function Scale(c: Elem, p: Poly): (s: Poly)
    ensures |s| == |p|
  {
    seq(|p|, i requires 0 <= i < |p| => Mul(c, p[i]))
  }

  lemma {:induction false} EvalSum(p: Poly, q: Poly, x: Elem)
    requires |p| == |q|
    ensures Eval(Sum(p, q), x) == Add(Eval(p, x), Eval(q, x))
  {
    hide Add, Mul;
    if p == [] {
      AddFacts(0, 0);
    } else {
      EvalSum(p[1..], q[1..], x);
      assert Sum(p, q)[1..] == Sum(p[1..], q[1..]);
      AddOnRight(x, Eval(p[1..], x), Eval(q[1..], x));
      AddSwap(p[0], q[0], Mul(x, Eval(p[1..], x)), Mul(x, Eval(q[1..], x)));
    }
  }

  lemma {:induction false} EvalScale(c: Elem, p: Poly, x: Elem)
    ensures Eval(Scale(c, p), x) == Mul(c, Eval(p, x))
  {
    hide Add, Mul;
    MulOne(c);
    if p != [] {
      EvalScale(c, p[1..], x);
      assert Scale(c, p)[1..] == Scale(c, p[1..]);
      var e := Eval(p[1..], x);
      AddOnRight(c, p[0], Mul(x, e));
      MulAssociates(x, c, e);
      MulCommutes(x, c);
      MulAssociates(c, x, e);
    }
  }

  lemma {:induction false} EvalPadded(p: Poly, x: Elem)
    ensures Eval(p + [0], x) == Eval(p, x)
  {
    hide Add, Mul;
    if p == [] {
      MulOne(x);
      AddFacts(0, 0);
      assert (p + [0])[1..] == [];
    } else {
      assert (p + [0])[1..] == p[1..] + [0];
      EvalPadded(p[1..], x);
    }
  }

  /** Two polynomials with n coefficients that agree at n points agree everywhere. */
  lemma Unique(p: Poly, q: Poly, xs: seq<Elem>, x: Elem)
    requires |p| == |q| == |xs| && Distinct(xs)
    requires forall i :: 0 <= i < |xs| ==> Eval(p, xs[i]) == Eval(q, xs[i])
    ensures Eval(p, x) == Eval(q, x)
  {
    hide Add, Mul, Eval, Sum;
    forall i | 0 <= i < |xs| ensures Eval(Sum(p, q), xs[i]) == 0 {
      EvalSum(p, q, xs[i]);
      AddZeroOnlyOfEqual(Eval(p, xs[i]), Eval(q, xs[i]));
    }
    TooManyRoots(Sum(p, q), xs, x);
    EvalSum(p, q, x);
    AddZeroOnlyOfEqual(Eval(p, x), Eval(q, x));
  }

  // ----- Interpolation -----

  /** The product of (x - r) over `xs`. */
  function Vanishing(xs: seq<Elem>): (v: Poly)
    ensures |v| == |xs| + 1
  {
    if xs == [] then [1]
    else
      var v := Vanishing(xs[..|xs| - 1]);
      Sum([0] + v, Scale(xs[|xs| - 1], v) + [0])
  }

  lemma {:induction false} VanishingStep(xs: seq<Elem>, x: Elem)
    requires xs != []
    ensures Eval(Vanishing(xs), x) == Mul(Add(x, xs[|xs| - 1]), Eval(Vanishing(xs[..|xs| - 1]), x))
  {
    hide Add, Mul, Sum, Scale;
    var r, v := xs[|xs| - 1], Vanishing(xs[..|xs| - 1]);
    EvalSum([0] + v, Scale(r, v) + [0], x);
    assert ([0] + v)[1..] == v;
    AddFacts(Mul(x, Eval(v, x)), 0);
    EvalPadded(Scale(r, v), x);
    EvalScale(r, v, x);
    AddOnLeft(x, r, Eval(v, x));
  }

  /** It vanishes exactly there. */
  lemma {:induction false} VanishingRoots(xs: seq<Elem>, x: Elem)
    ensures Eval(Vanishing(xs), x) == 0 <==> x in xs
  {
    hide Add, Mul;
    if xs == [] {
      assert Vanishing(xs)[1..] == [];
      MulOne(x);
      AddFacts(1, 0);
    } else {
      var last := |xs| - 1;
      assert xs == xs[..last] + [xs[last]];
      VanishingStep(xs, x);
      VanishingRoots(xs[..last], x);
      AddZeroOnlyOfEqual(x, xs[last]);
      MulOne(Add(x, xs[last]));
      MulOne(Eval(Vanishing(xs[..last]), x));
      if x !in xs {
        if Mul(Add(x, xs[last]), Eval(Vanishing(xs[..last]), x)) == 0 {
          NoZeroDivisors(Add(x, xs[last]), Eval(Vanishing(xs[..last]), x));
        }
      }
    }
  }

  /** The polynomial with |xs| coefficients that takes the values `ys` at `xs`. */
  function Interpolate(xs: seq<Elem>, ys: seq<Elem>): (p: Poly)
    requires |xs| == |ys|
    ensures |p| == |xs|
  {
    if xs == [] then []
    else
      var last := |xs| - 1;
      var p, v := Interpolate(xs[..last], ys[..last]), Vanishing(xs[..last]);
      var c := Mul(Add(ys[last], Eval(p, xs[last])), Inv(Eval(v, xs[last])));
      Sum(p + [0], Scale(c, v))
  }

  lemma EvalNewtonStep(p: Poly, c: Elem, v: Poly, x: Elem)
    requires |v| == |p| + 1
    ensures Eval(Sum(p + [0], Scale(c, v)), x) == Add(Eval(p, x), Mul(c, Eval(v, x)))
  {
    hide Add, Mul, Eval, Sum, Scale;
    EvalSum(p + [0], Scale(c, v), x);
    EvalPadded(p, x);
    EvalScale(c, v, x);
  }

  /** The new coefficient makes the polynomial take the new value. */
  lemma NewtonHits(y: Elem, e: Elem, w: Elem)
    requires w != 0
    ensures Add(e, Mul(Mul(Add(y, e), Inv(w)), w)) == y
  {
    hide Add, Mul, Inv;
    MulAssociates(Add(y, e), Inv(w), w);
    MulCommutes(Inv(w), w);
    InverseWorks(w);
    MulOne(Add(y, e));
    AddFacts(y, e);
    AddAssoc(e, e, y);
    AddFacts(e, e);
    AddFacts(y, 0);
  }

  lemma {:induction false} InterpolateHits(xs: seq<Elem>, ys: seq<Elem>, i: nat)
    requires |xs| == |ys| && Distinct(xs) && i < |xs|
    ensures Eval(Interpolate(xs, ys), xs[i]) == ys[i]
    decreases |xs|
  {
    hide Add, Mul, Inv, Eval, Sum, Scale, Vanishing;
    var last := |xs| - 1;
    var p, v := Interpolate(xs[..last], ys[..last]), Vanishing(xs[..last]);
    var c := Mul(Add(ys[last], Eval(p, xs[last])), Inv(Eval(v, xs[last])));
    EvalNewtonStep(p, c, v, xs[i]);
    VanishingRoots(xs[..last], xs[i]);
    if i < last {
      InterpolateHits(xs[..last], ys[..last], i);
      assert xs[..last][i] == xs[i];
      MulOne(c);
      AddFacts(ys[i], 0);
    } else {
      NewtonHits(ys[last], Eval(p, xs[last]), Eval(v, xs[last]));
    }
  }
}
