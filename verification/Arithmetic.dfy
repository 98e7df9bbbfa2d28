/** Products and sums of reals, with the few laws the other modules need by name. */
module Arithmetic {

  /** Multiplication by name, so that proofs instantiate its laws one at a time. */
  function Product(x: real, y: real): real {
    x * y
  }

  lemma Distribute(a: real, b: real, x: real)
    ensures Product(a + b, x) == Product(a, x) + Product(b, x)
    ensures Product(x, a + b) == Product(x, a) + Product(x, b)
  {
  }

  lemma SameSign(x: real, y: real)
    requires (x > 0.0 && y > 0.0) || (x < 0.0 && y < 0.0)
    ensures Product(x, y) > 0.0
  {
  }

  lemma SquareIsNonNegative(x: real)
    ensures Product(x, x) >= 0.0 && (x != 0.0 ==> Product(x, x) > 0.0)
  {
    if x != 0.0 {
      SameSign(x, x);
    } else {
      assert Product(0.0, 0.0) == 0.0;
    }
  }

  lemma ScaledSign(w: real, q: real)
    requires w > 0.0 && q >= 0.0
    ensures Product(w, q) >= 0.0 && (Product(w, q) == 0.0 ==> q == 0.0)
  {
  }

  lemma ProductGrows(w: real, x: real, y: real)
    requires w >= 0.0 && x <= y
    ensures Product(w, x) <= Product(w, y) && Product(x, w) <= Product(y, w)
  {
  }

  lemma QuotientGrows(x: real, y: real, d: real)
    requires d > 0.0 && x <= y
    ensures x / d <= y / d
  {
  }

  function Sum(xs: seq<real>): real {
    if |xs| == 0 then 0.0 else Sum(xs[..|xs| - 1]) + xs[|xs| - 1]
  }

  lemma SumAppend(xs: seq<real>, x: real)
    ensures Sum(xs + [x]) == Sum(xs) + x
  {
    assert (xs + [x])[..|xs|] == xs;
  }

  lemma {:induction false} SumGrows(xs: seq<real>, ys: seq<real>)
    requires |xs| == |ys| && forall i :: 0 <= i < |xs| ==> xs[i] <= ys[i]
    ensures Sum(xs) <= Sum(ys)
  {
    if |xs| > 0 {
      SumGrows(xs[..|xs| - 1], ys[..|ys| - 1]);
    }
  }
}
