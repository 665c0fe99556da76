/** Fixed-width arithmetic and exact sums.
    Rust's `u64` and `u128` values are naturals here; where the code saturates, the
    saturation is written out. */
module Arithmetic {

  const U32_MAX: nat := 0xFFFF_FFFF
  const U64_MAX: nat := 0xFFFF_FFFF_FFFF_FFFF
  const U128_MAX: nat := 0xFFFF_FFFF_FFFF_FFFF_FFFF_FFFF_FFFF_FFFF

  function Min(a: nat, b: nat): nat { if a <= b then a else b }

  function Max(a: nat, b: nat): nat { if a <= b then b else a }

  function SatAdd(a: nat, b: nat): nat { Min(a + b, U128_MAX) }

  function SatMul(a: nat, b: nat): nat { Min(a * b, U128_MAX) }

  function SatSub(a: nat, b: nat): nat { if b <= a then a - b else 0 }

  function SatAdd64(a: nat, b: nat): nat { Min(a + b, U64_MAX) }

  function CeilDiv(a: nat, b: nat): nat
    requires b > 0
  {
    (a + b - 1) / b
  }

  function Sum(s: seq<nat>): nat {
    if s == [] then 0 else Sum(s[..|s| - 1]) + s[|s| - 1]
  }

  lemma {:induction false} SumConcat(a: seq<nat>, b: seq<nat>)
    ensures Sum(a + b) == Sum(a) + Sum(b)
  {
    if b == [] {
      assert a + b == a;
    } else {
      assert (a + b)[..|a + b| - 1] == a + b[..|b| - 1];
      SumConcat(a, b[..|b| - 1]);
    }
  }

  lemma SumAppend(s: seq<nat>, x: nat)
    ensures Sum(s + [x]) == Sum(s) + x
  {
    assert (s + [x])[..|s|] == s;
  }

  lemma SumPrefix(s: seq<nat>, i: nat)
    requires i < |s|
    ensures Sum(s[..i + 1]) == Sum(s[..i]) + s[i]
  {
    assert s[..i + 1][..i] == s[..i];
  }

  lemma {:induction false} SumPrefixBound(s: seq<nat>, i: nat)
    requires i <= |s|
    ensures Sum(s[..i]) <= Sum(s)
  {
    assert s == s[..i] + s[i..];
    SumConcat(s[..i], s[i..]);
  }

  lemma {:induction false} SumElementBound(s: seq<nat>, i: nat)
    requires i < |s|
    ensures s[i] <= Sum(s)
  {
    SumPrefix(s, i);
    SumPrefixBound(s, i + 1);
  }

  /** A sum of nothing but zeros is zero, and conversely. */
  lemma {:induction false} SumZero(s: seq<nat>)
    ensures Sum(s) == 0 <==> forall i :: 0 <= i < |s| ==> s[i] == 0
  {
    if s != [] {
      SumZero(s[..|s| - 1]);
      assert forall i :: 0 <= i < |s| - 1 ==> s[..|s| - 1][i] == s[i];
    }
  }

  lemma {:induction false} SumOfConstant(s: seq<nat>, c: nat)
    requires forall i :: 0 <= i < |s| ==> s[i] == c
    ensures Sum(s) == |s| * c
  {
    if s != [] {
      SumOfConstant(s[..|s| - 1], c);
      calc {
        Sum(s);
        (|s| - 1) * c + c;
        |s| * c;
      }
    }
  }

  lemma {:induction false} SumPointwiseBound(s: seq<nat>, t: seq<nat>)
    requires |s| == |t|
    requires forall i :: 0 <= i < |s| ==> s[i] <= t[i]
    ensures Sum(s) <= Sum(t)
  {
    if s != [] {
      SumPointwiseBound(s[..|s| - 1], t[..|t| - 1]);
    }
  }

  // ----- the proportional split shared by emission, provider pool, stake and block rewards -----

  /** The floor share of part `i`, with the product saturating as in the code. */
  function FloorShare(amount: nat, weight: nat, total: nat): nat
    requires total > 0
  {
    SatMul(amount, weight) / total
  }

  function FloorShares(amount: nat, weights: seq<nat>, total: nat): (r: seq<nat>)
    requires total > 0
    ensures |r| == |weights|
  {
    seq(|weights|, i requires 0 <= i < |weights| => FloorShare(amount, weights[i], total))
  }

  /** Every part but the last is its floor share; the last is whatever is left. */
  function Split(amount: nat, weights: seq<nat>, total: nat): (r: seq<nat>)
    requires total > 0
    ensures |r| == |weights|
  {
    if weights == [] then []
    else
      var head := FloorShares(amount, weights[..|weights| - 1], total);
      head + [SatSub(amount, Sum(head))]
  }

  lemma FloorShareBound(amount: nat, weight: nat, total: nat)
    requires total > 0
    ensures FloorShare(amount, weight, total) * total <= amount * weight
  {
    var p := SatMul(amount, weight);
    assert (p / total) * total <= p;
  }

  lemma Distribute(a: nat, b: nat, c: nat)
    ensures (a + b) * c == a * c + b * c == c * (a + b)
  {
  }

  lemma MulMonotone(a: nat, b: nat, c: nat)
    requires a <= b
    ensures a * c <= b * c && c * a <= c * b
  {
    Distribute(a, b - a, c);
  }

  lemma AddBounds(x: nat, y: nat, total: nat, amount: nat, u: nat, v: nat)
    requires x * total <= amount * u && y * total <= amount * v
    ensures (x + y) * total <= amount * (u + v)
  {
    Distribute(x, y, total);
    Distribute(u, v, amount);
  }

  lemma {:induction false} FloorSharesBound(amount: nat, weights: seq<nat>, total: nat)
    requires total > 0
    ensures Sum(FloorShares(amount, weights, total)) * total <= amount * Sum(weights)
  {
    var r := FloorShares(amount, weights, total);
    if weights != [] {
      var k := |weights| - 1;
      FloorSharesBound(amount, weights[..k], total);
      assert r[..k] == FloorShares(amount, weights[..k], total);
      FloorShareBound(amount, weights[k], total);
      AddBounds(Sum(r[..k]), r[k], total, amount, Sum(weights[..k]), weights[k]);
    }
  }

  lemma CancelFactor(x: nat, y: nat, c: nat)
    requires c > 0 && x * c <= y * c
    ensures x <= y
  {
    Distribute(y, 1, c);
    if x > y {
      MulMonotone(y + 1, x, c);
    }
  }

  /** The floor shares never exceed what is split, saturated products included. */
  lemma FloorSharesFit(amount: nat, weights: seq<nat>, total: nat)
    requires total > 0 && Sum(weights) <= total
    ensures Sum(FloorShares(amount, weights, total)) <= amount
  {
    FloorSharesBound(amount, weights, total);
    MulMonotone(Sum(weights), total, amount);
    CancelFactor(Sum(FloorShares(amount, weights, total)), amount, total);
  }

  /** The split is exact: no unit is created or lost, whatever the products saturate to. */
  lemma SplitExact(amount: nat, weights: seq<nat>, total: nat)
    requires weights != [] && total > 0 && Sum(weights) <= total
    ensures Sum(Split(amount, weights, total)) == amount
    ensures forall i :: 0 <= i < |weights| ==> Split(amount, weights, total)[i] <= amount
  {
    var k := |weights| - 1;
    var head := FloorShares(amount, weights[..k], total);
    FloorSharesFit(amount, weights[..k], total);
    SumAppend(head, amount - Sum(head));
    var r := Split(amount, weights, total);
    forall i | 0 <= i < |weights|
      ensures r[i] <= amount
    {
      SumElementBound(r, i);
    }
  }

  /** Each part as a loop computes it from the parts before it. */
  lemma SplitAt(amount: nat, weights: seq<nat>, total: nat, i: nat)
    requires total > 0 && i < |weights|
    ensures Split(amount, weights, total)[i]
         == if i + 1 == |weights| then SatSub(amount, Sum(Split(amount, weights, total)[..i]))
            else FloorShare(amount, weights[i], total)
  {
    var r := Split(amount, weights, total);
    if i + 1 == |weights| {
      assert r[..i] == FloorShares(amount, weights[..i], total);
    }
  }

  /** The running total a loop keeps while it hands out the first `i` floor shares. */
  lemma SplitPrefix(amount: nat, weights: seq<nat>, total: nat, i: nat)
    requires weights != [] && total > 0 && Sum(weights) <= total && i < |weights|
    ensures Sum(Split(amount, weights, total)[..i]) <= amount
    ensures Split(amount, weights, total)[i]
         == if i + 1 == |weights| then amount - Sum(Split(amount, weights, total)[..i])
            else FloorShare(amount, weights[i], total)
  {
    var r := Split(amount, weights, total);
    SplitExact(amount, weights, total);
    SumPrefixBound(r, i);
    if i + 1 == |weights| {
      assert r[..i] == FloorShares(amount, weights[..i], total);
    }
  }
}
