/**
 * Valuation of holdings: the per-holding refresh that `getPortfolio` performs with
 * fresh prices, and `calculatePortfolioTotals`, the portfolio-wide aggregate.
 */
module Valuation {
  import opened Money
  import opened Records

  /** The sum of one numeric field over the holdings, folded left to right as `reduce` does. */
  function Sum(hs: seq<Holding>, field: Holding -> real): real {
    if hs == [] then 0.0 else Sum(hs[..|hs| - 1], field) + field(hs[|hs| - 1])
  }

  function Invested(h: Holding): real { h.totalInvested }

  function Value(h: Holding): real { h.currentValue }

  lemma {:induction false} SumConcat(a: seq<Holding>, b: seq<Holding>, field: Holding -> real)
    ensures Sum(a + b, field) == Sum(a, field) + Sum(b, field)
  {
    if b != [] {
      assert (a + b)[..|a + b| - 1] == a + b[..|b| - 1];
      SumConcat(a, b[..|b| - 1], field);
    } else {
      assert a + b == a;
    }
  }

  /** Appending one holding (`push`) adds its field to the sum. */
  lemma SumAppend(hs: seq<Holding>, h: Holding, field: Holding -> real)
    ensures Sum(hs + [h], field) == Sum(hs, field) + field(h)
  {
    assert (hs + [h])[..|hs|] == hs;
  }

  /** A sum splits at any position. */
  lemma SumSplit(hs: seq<Holding>, i: nat, field: Holding -> real)
    requires i <= |hs|
    ensures Sum(hs, field) == Sum(hs[..i], field) + Sum(hs[i..], field)
  {
    assert hs[..i] + hs[i..] == hs;
    SumConcat(hs[..i], hs[i..], field);
  }

  /** The sum of a non-empty suffix is its first field plus the sum of the rest. */
  lemma SumFirst(hs: seq<Holding>, i: nat, field: Holding -> real)
    requires i < |hs|
    ensures Sum(hs[i..], field) == field(hs[i]) + Sum(hs[i + 1..], field)
  {
    assert hs[i..] == [hs[i]] + hs[i + 1..];
    SumConcat([hs[i]], hs[i + 1..], field);
    assert [hs[i]][..0] == [];
  }

  /** Replacing one holding changes the sum by the difference of that holding's field. */
  lemma SumUpdate(hs: seq<Holding>, i: nat, h: Holding, field: Holding -> real)
    requires i < |hs|
    ensures Sum(hs[i := h], field) == Sum(hs, field) - field(hs[i]) + field(h)
  {
    var updated := hs[i := h];
    SumSplit(hs, i, field);
    SumFirst(hs, i, field);
    SumSplit(updated, i, field);
    SumFirst(updated, i, field);
    assert updated[..i] == hs[..i];
    assert updated[i + 1..] == hs[i + 1..];
  }

  /** Removing one holding (`splice(i, 1)`) takes its field out of the sum. */
  lemma SumRemove(hs: seq<Holding>, i: nat, field: Holding -> real)
    requires i < |hs|
    ensures Sum(hs[..i] + hs[i + 1..], field) == Sum(hs, field) - field(hs[i])
  {
    SumSplit(hs, i, field);
    SumFirst(hs, i, field);
    SumConcat(hs[..i], hs[i + 1..], field);
  }

  /** Removing the element at `j` removes one occurrence of it from the multiset. */
  lemma MultisetRemove(ps: seq<Holding>, j: nat)
    requires j < |ps|
    ensures multiset(ps[..j] + ps[j + 1..]) == multiset(ps) - multiset{ps[j]}
  {
    assert ps == ps[..j] + [ps[j]] + ps[j + 1..];
  }

  /** The order of the holdings does not matter to a sum. */
  lemma {:induction false} SumPermutation(hs: seq<Holding>, ps: seq<Holding>, field: Holding -> real)
    requires multiset(hs) == multiset(ps)
    ensures Sum(hs, field) == Sum(ps, field)
    decreases |hs|
  {
    if hs != [] {
      var n := |hs| - 1;
      var last := hs[n];
      assert last in multiset(ps) by {
        assert last in multiset(hs);
      }
      var j :| 0 <= j < |ps| && ps[j] == last;
      MultisetRemove(ps, j);
      MultisetRemove(hs, n);
      assert hs[..n] + hs[n + 1..] == hs[..n];
      SumPermutation(hs[..n], ps[..j] + ps[j + 1..], field);
      SumRemove(ps, j, field);
    } else {
      assert ps == [] by {
        assert |multiset(ps)| == 0;
      }
    }
  }

  /** No negative field anywhere means a non-negative sum. */
  lemma {:induction false} SumNonNegative(hs: seq<Holding>, field: Holding -> real)
    requires forall i :: 0 <= i < |hs| ==> field(hs[i]) >= 0.0
    ensures Sum(hs, field) >= 0.0
  {
    if hs != [] {
      SumNonNegative(hs[..|hs| - 1], field);
    }
  }

  /** Amounts in whole cents add up to whole cents. */
  lemma {:induction false} SumCents(hs: seq<Holding>, field: Holding -> real)
    requires forall i :: 0 <= i < |hs| ==> IsCents(field(hs[i]))
    ensures IsCents(Sum(hs, field))
  {
    if hs != [] {
      var init := hs[..|hs| - 1];
      SumCents(init, field);
      var a := Sum(init, field);
      var b := field(hs[|hs| - 1]);
      CentsAdd(a, b);
    }
  }

  datatype PortfolioTotals = PortfolioTotals(
    totalInvested: real,
    totalValue: real,
    totalProfitLoss: real,
    profitLossPercentage: real)

  /** `(part / whole) * 100`, guarded to 0 when nothing is invested. */
  function Percentage(part: real, whole: real): (r: real)
    ensures whole <= 0.0 ==> r == 0.0
    ensures whole > 0.0 ==> r * whole == part * 100.0
  {
    if whole > 0.0 then (part / whole) * 100.0 else 0.0
  }

  /**
   * `calculatePortfolioTotals`: the amount invested and the current value summed over
   * the holdings, their difference, and that difference as a percentage of the amount
   * invested (0 when nothing is invested), each rounded to cents.
   */
  function CalculatePortfolioTotals(hs: seq<Holding>): (t: PortfolioTotals)
    ensures hs == [] ==> t == PortfolioTotals(0.0, 0.0, 0.0, 0.0)
    ensures IsCents(t.totalInvested) && IsCents(t.totalValue) && IsCents(t.totalProfitLoss) && IsCents(t.profitLossPercentage)
    ensures Sum(hs, Invested) - 0.005 < t.totalInvested <= Sum(hs, Invested) + 0.005
    ensures Sum(hs, Value) - 0.005 < t.totalValue <= Sum(hs, Value) + 0.005
    ensures Sum(hs, Value) - Sum(hs, Invested) - 0.005 < t.totalProfitLoss <= Sum(hs, Value) - Sum(hs, Invested) + 0.005
    ensures Sum(hs, Value) >= Sum(hs, Invested) ==> t.totalProfitLoss >= 0.0
    ensures Sum(hs, Invested) <= 0.0 ==> t.profitLossPercentage == 0.0
    ensures Sum(hs, Invested) > 0.0 ==>
      var pct := (Sum(hs, Value) - Sum(hs, Invested)) / Sum(hs, Invested) * 100.0;
      pct - 0.005 < t.profitLossPercentage <= pct + 0.005
  {
    var invested := Sum(hs, Invested);
    var value := Sum(hs, Value);
    var profitLoss := value - invested;
    Round2OfCents(0.0);
    PortfolioTotals(Round2(invested), Round2(value), Round2(profitLoss), Round2(Percentage(profitLoss, invested)))
  }

  /** The aggregates do not depend on the order of the holdings. */
  lemma TotalsIgnoreOrder(hs: seq<Holding>, ps: seq<Holding>)
    requires multiset(hs) == multiset(ps)
    ensures CalculatePortfolioTotals(hs) == CalculatePortfolioTotals(ps)
  {
    SumPermutation(hs, ps, Invested);
    SumPermutation(hs, ps, Value);
  }

  /** With no negative amount invested anywhere, the aggregate amount invested is not negative. */
  lemma TotalsInvestedNonNegative(hs: seq<Holding>)
    requires forall i :: 0 <= i < |hs| ==> hs[i].totalInvested >= 0.0
    ensures CalculatePortfolioTotals(hs).totalInvested >= 0.0
  {
    SumNonNegative(hs, Invested);
  }

  /** `Math.round(price * quantity * 100) / 100`: the current value of a position. */
  function MarketValue(quantity: real, price: real): (v: real)
    ensures IsCents(v)
    ensures price * quantity - 0.005 < v <= price * quantity + 0.005
  {
    Round2(price * quantity)
  }

  /** The unrealised profit or loss of a position against what was invested in it, in cents. */
  function ProfitLoss(quantity: real, invested: real, price: real): (r: real)
    ensures IsCents(r)
    ensures price * quantity - invested - 0.005 < r <= price * quantity - invested + 0.005
  {
    Round2(price * quantity - invested)
  }

  /** That profit or loss as a percentage of the amount invested, 0 when nothing is invested, in cents. */
  function ProfitLossPercentage(quantity: real, invested: real, price: real): (r: real)
    ensures IsCents(r)
    ensures invested <= 0.0 ==> r == 0.0
    ensures invested > 0.0 ==>
      var pct := (price * quantity - invested) / invested * 100.0;
      pct - 0.005 < r <= pct + 0.005
  {
    Round2OfCents(0.0);
    Round2(Percentage(price * quantity - invested, invested))
  }

  /**
   * One holding of `getPortfolio`'s refresh: with the oracle's `price`, the current
   * value, the profit or loss and its percentage are recomputed; the ledger fields
   * (symbol, quantity, average price, amount invested) are kept.
   */
  function Revalue(h: Holding, price: real): (r: Holding)
    ensures r.symbol == h.symbol && r.quantity == h.quantity
    ensures r.averageBuyPrice == h.averageBuyPrice && r.totalInvested == h.totalInvested
    ensures r.currentValue == MarketValue(h.quantity, price)
    ensures r.profitLoss == ProfitLoss(h.quantity, h.totalInvested, price)
    ensures r.profitLossPercentage == ProfitLossPercentage(h.quantity, h.totalInvested, price)
  {
    Holding(h.symbol, h.quantity, h.averageBuyPrice, h.totalInvested,
      MarketValue(h.quantity, price),
      ProfitLoss(h.quantity, h.totalInvested, price),
      ProfitLossPercentage(h.quantity, h.totalInvested, price))
  }

  /** Every holding refreshed with the oracle's price for its symbol, in place. */
  function RevalueAll(hs: seq<Holding>, oracle: string -> real): (rs: seq<Holding>)
    ensures |rs| == |hs|
    ensures forall i :: 0 <= i < |hs| ==> rs[i] == Revalue(hs[i], oracle(hs[i].symbol))
  {
    seq(|hs|, i requires 0 <= i < |hs| => Revalue(hs[i], oracle(hs[i].symbol)))
  }

  /** A refresh reads only the ledger fields, which it keeps, so a second refresh at the same price changes nothing. */
  lemma RevalueIdempotent(h: Holding, price: real)
    ensures Revalue(Revalue(h, price), price) == Revalue(h, price)
  {
  }

  /** Refreshing twice with the same prices is refreshing once. */
  lemma RevalueAllIdempotent(hs: seq<Holding>, oracle: string -> real)
    ensures RevalueAll(RevalueAll(hs, oracle), oracle) == RevalueAll(hs, oracle)
  {
    var once := RevalueAll(hs, oracle);
    var twice := RevalueAll(once, oracle);
    forall i | 0 <= i < |hs| ensures twice[i] == once[i] {
      RevalueIdempotent(hs[i], oracle(hs[i].symbol));
    }
  }
}
