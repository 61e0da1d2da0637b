/** The store's AVG and MIN aggregates over the price columns of a group of
    listings. Both skip null prices and give null for a group without any. */
module Aggregate {
  import opened Db

  datatype Column = Sale | Rental

  function PriceIn(l: Listing, c: Column): Option<real> {
    match c
    case Sale => l.salePrice
    case Rental => l.rentalPrice
  }

  /** The group has at least one non-null price in column `c`. */
  ghost predicate AnyPrice(m: map<int, Listing>, ids: set<int>, c: Column)
    requires ids <= m.Keys
  {
    exists i :: i in ids && PriceIn(m[i], c).Some?
  }

  /** The sum of the non-null prices of column `c` over the listings `ids`. */
  ghost function Sum(m: map<int, Listing>, ids: set<int>, c: Column): real
    requires ids <= m.Keys
    decreases ids
  {
    if ids == {} then 0.0
    else
      var i := Pick(ids);
      (match PriceIn(m[i], c) case Some(v) => v case None => 0.0) + Sum(m, ids - {i}, c)
  }

  /** How many of the listings `ids` have a non-null price in column `c`. */
  ghost function Count(m: map<int, Listing>, ids: set<int>, c: Column): (n: nat)
    requires ids <= m.Keys
    ensures n == 0 <==> !AnyPrice(m, ids, c)
    ensures n <= |ids|
    decreases ids
  {
    if ids == {} then 0
    else
      var i := Pick(ids);
      var rest := Count(m, ids - {i}, c);
      assert forall j :: j in ids ==> j == i || j in ids - {i};
      if PriceIn(m[i], c).Some? then rest + 1 else rest
  }

  /** AVG over the group: null when no listing has a price in that column. */
  ghost function Avg(m: map<int, Listing>, ids: set<int>, c: Column): (r: Option<real>)
    requires ids <= m.Keys
    ensures r.Some? <==> AnyPrice(m, ids, c)
  {
    var n := Count(m, ids, c);
    if n == 0 then None else Some(Sum(m, ids, c) / n as real)
  }

  /** MIN over the group: the smallest non-null price, null when there is none. */
  ghost function Min(m: map<int, Listing>, ids: set<int>, c: Column): (r: Option<real>)
    requires ids <= m.Keys
    ensures r.Some? <==> AnyPrice(m, ids, c)
    ensures r.Some? ==> exists i :: i in ids && PriceIn(m[i], c) == r
    ensures forall i :: i in ids && PriceIn(m[i], c).Some? ==> r.Some? && r.value <= PriceIn(m[i], c).value
    decreases ids
  {
    if ids == {} then None
    else
      var i := Pick(ids);
      var rest := Min(m, ids - {i}, c);
      assert forall j :: j in ids ==> j == i || j in ids - {i};
      match PriceIn(m[i], c)
      case None => rest
      case Some(v) => if rest.Some? && rest.value < v then rest else Some(v)
  }

  /** `n` copies of `x` added up: `n * x` without a product. */
  function Scale(n: nat, x: real): real {
    if n == 0 then 0.0 else Scale(n - 1, x) + x
  }

  lemma {:induction false} ScaleIsProduct(n: nat, x: real)
    ensures Scale(n, x) == n as real * x
  {
    if n > 0 {
      ScaleIsProduct(n - 1, x);
      assert (n - 1) as real * x + x == n as real * x;
    }
  }

  lemma {:induction false} SumAtLeast(m: map<int, Listing>, ids: set<int>, c: Column, lo: real)
    requires ids <= m.Keys
    requires forall i :: i in ids && PriceIn(m[i], c).Some? ==> lo <= PriceIn(m[i], c).value
    ensures Scale(Count(m, ids, c), lo) <= Sum(m, ids, c)
    decreases ids
  {
    if ids != {} {
      var i := Pick(ids);
      SumAtLeast(m, ids - {i}, c, lo);
    }
  }

  lemma {:induction false} SumAtMost(m: map<int, Listing>, ids: set<int>, c: Column, hi: real)
    requires ids <= m.Keys
    requires forall i :: i in ids && PriceIn(m[i], c).Some? ==> PriceIn(m[i], c).value <= hi
    ensures Sum(m, ids, c) <= Scale(Count(m, ids, c), hi)
    decreases ids
  {
    if ids != {} {
      var i := Pick(ids);
      SumAtMost(m, ids - {i}, c, hi);
    }
  }

  /** Dividing a total by a positive count keeps a bound on the mean. */
  lemma MeanAtLeast(n: nat, total: real, lo: real)
    requires n > 0 && Scale(n, lo) <= total
    ensures lo <= total / n as real
  {
    ScaleIsProduct(n, lo);
    var k := n as real;
    assert total / k * k == total;
  }

  lemma MeanAtMost(n: nat, total: real, hi: real)
    requires n > 0 && total <= Scale(n, hi)
    ensures total / n as real <= hi
  {
    ScaleIsProduct(n, hi);
    var k := n as real;
    assert total / k * k == total;
  }

  /** An average never leaves the range its prices lie in. */
  lemma AvgWithin(m: map<int, Listing>, ids: set<int>, c: Column, lo: real, hi: real)
    requires ids <= m.Keys
    requires forall i :: i in ids && PriceIn(m[i], c).Some? ==> lo <= PriceIn(m[i], c).value <= hi
    ensures Avg(m, ids, c).Some? ==> lo <= Avg(m, ids, c).value <= hi
  {
    var n := Count(m, ids, c);
    if n > 0 {
      SumAtLeast(m, ids, c, lo);
      SumAtMost(m, ids, c, hi);
      MeanAtLeast(n, Sum(m, ids, c), lo);
      MeanAtMost(n, Sum(m, ids, c), hi);
    }
  }

  /** The cheapest price of a group is never above its average. */
  lemma MinNotAboveAvg(m: map<int, Listing>, ids: set<int>, c: Column)
    requires ids <= m.Keys
    ensures Avg(m, ids, c).Some? ==> Min(m, ids, c).value <= Avg(m, ids, c).value
  {
    var n := Count(m, ids, c);
    if n > 0 {
      var lo := Min(m, ids, c).value;
      SumAtLeast(m, ids, c, lo);
      MeanAtLeast(n, Sum(m, ids, c), lo);
    }
  }
}
