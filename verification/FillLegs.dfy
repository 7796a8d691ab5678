/** The weighted entry price of a position and the fill that grows it, from `domain/src/types.rs`. */
module FillLegs {
  import opened Prelude
  import opened RealArith
  import opened Domain

  datatype FillError = EmptyFillLegs | NonPositiveFillSize(size: real)

  function Cost(legs: seq<FillLeg>): real {
    if legs == [] then 0.0
    else Cost(legs[..|legs| - 1]) + Product(legs[|legs| - 1].price, legs[|legs| - 1].size)
  }

  function Average(legs: seq<FillLeg>): real
    requires TotalSize(legs) != 0.0
  {
    Cost(legs) / TotalSize(legs)
  }

  predicate AllPositive(legs: seq<FillLeg>) {
    forall i :: 0 <= i < |legs| ==> legs[i].size > 0.0
  }

  /** The first leg whose size is not positive. */
  predicate FirstBad(legs: seq<FillLeg>, i: int) {
    0 <= i < |legs| && legs[i].size <= 0.0 && forall k :: 0 <= k < i ==> legs[k].size > 0.0
  }

  lemma {:induction false} TotalSizePositive(legs: seq<FillLeg>)
    requires AllPositive(legs)
    ensures TotalSize(legs) >= 0.0
    ensures legs != [] ==> TotalSize(legs) > 0.0
  {
    if legs != [] {
      TotalSizePositive(legs[..|legs| - 1]);
    }
  }

  /** Errors exactly on an empty list or at the first leg of no positive size; otherwise the price at which
      the whole size would have cost the same. */
  method WeightedEntryPrice(legs: seq<FillLeg>) returns (r: Result<real, FillError>)
    ensures legs == [] <==> r == Err(EmptyFillLegs)
    ensures legs != [] && AllPositive(legs) ==> TotalSize(legs) > 0.0 && r == Ok(Average(legs))
    ensures forall i :: FirstBad(legs, i) ==> r == Err(NonPositiveFillSize(legs[i].size))
  {
    if legs == [] {
      return Err(EmptyFillLegs);
    }
    var weightedSum, totalSize := 0.0, 0.0;
    for i := 0 to |legs|
      invariant forall k :: 0 <= k < i ==> legs[k].size > 0.0
      invariant weightedSum == Cost(legs[..i]) && totalSize == TotalSize(legs[..i])
    {
      if legs[i].size <= 0.0 {
        assert FirstBad(legs, i);
        return Err(NonPositiveFillSize(legs[i].size));
      }
      assert legs[..i + 1][..i] == legs[..i];
      weightedSum := weightedSum + Product(legs[i].price, legs[i].size);
      totalSize := totalSize + legs[i].size;
    }
    assert legs[..|legs|] == legs;
    TotalSizePositive(legs);
    if totalSize == 0.0 {
      return Err(NonPositiveFillSize(0.0));
    }
    return Ok(weightedSum / totalSize);
  }

  lemma StaysBetween(low: real, high: real, cost: real, total: real, price: real, size: real)
    requires size > 0.0 && low <= price <= high && Product(low, total) <= cost <= Product(high, total)
    ensures Product(low, total + size) <= cost + Product(price, size) <= Product(high, total + size)
  {
    MulMonotone(low, price, size);
    MulMonotone(price, high, size);
    ProductAdds(low, total, size);
    ProductAdds(high, total, size);
  }

  lemma {:induction false} CostBetween(legs: seq<FillLeg>, low: real, high: real)
    requires AllPositive(legs) && forall i :: 0 <= i < |legs| ==> low <= legs[i].price <= high
    ensures Product(low, TotalSize(legs)) <= Cost(legs) <= Product(high, TotalSize(legs))
  {
    if legs != [] {
      var init, last := legs[..|legs| - 1], legs[|legs| - 1];
      CostBetween(init, low, high);
      hide Product;
      StaysBetween(low, high, Cost(init), TotalSize(init), last.price, last.size);
    }
  }

  /** An average of fills lies between the cheapest and the dearest of them. */
  lemma EntryPriceBetweenFills(legs: seq<FillLeg>, low: real, high: real)
    requires legs != [] && AllPositive(legs) && forall i :: 0 <= i < |legs| ==> low <= legs[i].price <= high
    ensures TotalSize(legs) > 0.0
    ensures low <= Average(legs) <= high
  {
    TotalSizePositive(legs);
    CostBetween(legs, low, high);
    hide Cost, TotalSize;
    QuotientBetween(low, Cost(legs), high, TotalSize(legs));
  }

  /** An accepted fill pulls the average towards its own price, by its share of the new size, and never past it. */
  lemma FillAverages(legs: seq<FillLeg>, leg: FillLeg)
    requires legs != [] && AllPositive(legs) && leg.size > 0.0
    ensures 0.0 < TotalSize(legs) < TotalSize(legs + [leg])
    ensures var before, now := Average(legs), Average(legs + [leg]);
              && Product(now - before, TotalSize(legs + [leg])) == Product(leg.price - before, leg.size)
              && (if before <= leg.price then before <= now <= leg.price else leg.price <= now <= before)
  {
    TotalSizePositive(legs);
    assert (legs + [leg])[..|legs|] == legs;
    var total, cost := TotalSize(legs), Cost(legs);
    assert TotalSize(legs + [leg]) == total + leg.size && Cost(legs + [leg]) == cost + Product(leg.price, leg.size);
    hide Cost, TotalSize, Product;
    PullTowards(cost, total, leg.price, leg.size);
  }

  lemma AcceptedFill(legs: seq<FillLeg>, leg: FillLeg)
    requires AllPositive(legs + [leg])
    ensures TotalSize(legs + [leg]) > 0.0
    ensures legs != [] && TotalSize(legs) != 0.0 ==>
              var before, now := Average(legs), Average(legs + [leg]);
                && Product(now - before, TotalSize(legs + [leg])) == Product(leg.price - before, leg.size)
                && (if before <= leg.price then before <= now <= leg.price else leg.price <= now <= before)
  {
    var all := legs + [leg];
    assert all[|legs|] == leg && forall i :: 0 <= i < |legs| ==> all[i] == legs[i];
    hide Cost, TotalSize, Product, Average;
    TotalSizePositive(all);
    if legs != [] {
      FillAverages(legs, leg);
    }
  }

  lemma PullTowards(cost: real, total: real, price: real, size: real)
    requires total > 0.0 && size > 0.0
    ensures var before, now := cost / total, (cost + Product(price, size)) / (total + size);
              && Product(now - before, total + size) == Product(price - before, size)
              && (if before <= price then before <= now <= price else price <= now <= before)
  {
    var before, spent, whole := cost / total, cost + Product(price, size), total + size;
    var now := spent / whole;
    QuotientTimes(cost, total);
    QuotientTimes(spent, whole);
    hide Product;
    ProductSubtracts(now, before, whole);
    ProductAdds(before, total, size);
    ProductSubtracts(price, before, size);
    if before <= price {
      ProductGrows(before, price, total);
      StaysBetween(before, price, cost, total, price, size);
      Within(before, spent, price, whole);
    } else {
      ProductGrows(price, before, total);
      StaysBetween(price, before, cost, total, price, size);
      Within(price, spent, before, whole);
    }
  }

  lemma ProductGrows(u: real, v: real, w: real)
    requires u <= v && w > 0.0
    ensures Product(u, w) <= Product(v, w)
  {
    MulMonotone(u, v, w);
  }

  lemma Within(low: real, u: real, high: real, d: real)
    requires d > 0.0 && Product(low, d) <= u <= Product(high, d)
    ensures low <= u / d <= high
  {
    QuotientBetween(low, u, high, d);
  }

  /** What a fill reads and writes of a position. */
  datatype Holding = Holding(legs: seq<FillLeg>, entryPrice: real, lastUpdate: int)

  /** The leg is kept either way; price and time move only if every leg has a positive size. */
  function Applied(h: Holding, leg: FillLeg): Holding {
    var legs := h.legs + [leg];
    if AllPositive(legs) && TotalSize(legs) != 0.0 then Holding(legs, Average(legs), leg.filledAt)
    else h.(legs := legs)
  }

  /** A position as the object the source grows in place. */
  class GrowingPosition {
    var legs: seq<FillLeg>
    var entryPrice: real
    var lastUpdate: int

    constructor (legs: seq<FillLeg>, entryPrice: real, lastUpdate: int)
      ensures this.legs == legs && this.entryPrice == entryPrice && this.lastUpdate == lastUpdate
    {
      this.legs := legs;
      this.entryPrice := entryPrice;
      this.lastUpdate := lastUpdate;
    }

    function View(): Holding
      reads this
    {
      Holding(legs, entryPrice, lastUpdate)
    }

    /** The entry price is the size-weighted mean of the legs. */
    predicate IsAverage()
      reads this
    {
      TotalSize(legs) != 0.0 && entryPrice == Average(legs)
    }

    /** The leg is kept whether or not it is accepted: a refused leg stays in the list, with the price and
        time of the last accepted fill. An accepted leg pulls the mean towards its own price. */
    method ApplyFillLeg(leg: FillLeg) returns (r: Result<(), FillError>)
      modifies this
      ensures View() == Applied(old(View()), leg)
      ensures r.Ok? <==> AllPositive(legs)
      ensures r.Ok? ==> TotalSize(legs) > 0.0 && entryPrice == Average(legs) && lastUpdate == leg.filledAt
      ensures r.Err? ==> entryPrice == old(entryPrice) && lastUpdate == old(lastUpdate)
      ensures r.Ok? && old(legs != [] && IsAverage()) ==>
                && Product(entryPrice - old(entryPrice), TotalSize(legs))
                   == Product(leg.price - old(entryPrice), leg.size)
                && (if old(entryPrice) <= leg.price then old(entryPrice) <= entryPrice <= leg.price
                    else leg.price <= entryPrice <= old(entryPrice))
    {
      hide Cost, TotalSize, Product, Average;
      if AllPositive(legs + [leg]) {
        TotalSizePositive(legs + [leg]);
        AcceptedFill(legs, leg);
      } else {
        var _ := FindFirstBad(legs + [leg]);
      }
      legs := legs + [leg];
      var price := WeightedEntryPrice(legs);
      match price {
        case Err(e) => return Err(e);
        case Ok(p) =>
          entryPrice := p;
          lastUpdate := leg.filledAt;
          return Ok(());
      }
    }
  }

  lemma {:induction false} FindFirstBad(legs: seq<FillLeg>) returns (i: int)
    requires !AllPositive(legs)
    ensures FirstBad(legs, i)
  {
    var init := legs[..|legs| - 1];
    if AllPositive(init) {
      i := |legs| - 1;
      assert forall j :: 0 <= j < |init| ==> legs[j] == init[j];
    } else {
      i := FindFirstBad(init);
    }
  }

  /** A position with every leg so applied in turn. */
  function AllApplied(h: Holding, legs: seq<FillLeg>): Holding {
    if legs == [] then h else Applied(AllApplied(h, legs[..|legs| - 1]), legs[|legs| - 1])
  }

  /** One refused leg spoils every later fill: whatever is applied afterwards is refused too, and the price and time
      of the position never move again. */
  lemma {:induction false} RefusedLegPoisons(h: Holding, bad: FillLeg, later: seq<FillLeg>)
    requires bad.size <= 0.0
    ensures AllApplied(Applied(h, bad), later) == Holding(h.legs + [bad] + later, h.entryPrice, h.lastUpdate)
    ensures !AllPositive(AllApplied(Applied(h, bad), later).legs)
  {
    var all := h.legs + [bad] + later;
    assert all[|h.legs|] == bad;
    if later == [] {
      assert all == h.legs + [bad];
    } else {
      hide TotalSize, Average;
      RefusedLegPoisons(h, bad, later[..|later| - 1]);
      assert all == h.legs + [bad] + later[..|later| - 1] + [later[|later| - 1]];
    }
  }
}
