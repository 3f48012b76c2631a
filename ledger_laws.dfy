/**
 * What the ledger steps guarantee: the ledger invariant is kept by every operation,
 * symbols stay unique, the cost basis moves exactly with the trades, money is
 * conserved between the balance and the transaction log, and the log only grows.
 */
module LedgerLaws {
  import opened Wrappers
  import opened Money
  import opened Text
  import opened Records
  import opened Validation
  import opened Valuation
  import opened Ledger

  // ---------------------------------------------------------------------------
  // Portfolio-level building blocks
  // ---------------------------------------------------------------------------

  /** Replacing a holding by a live one with the same symbol keeps the holdings live and uniquely keyed. */
  lemma ReplaceKeepsInvariant(hs: seq<Holding>, i: nat, h: Holding)
    requires i < |hs| && LiveHolding(h) && h.symbol == hs[i].symbol
    requires AllLive(hs) && UniqueSymbols(hs)
    ensures AllLive(hs[i := h]) && UniqueSymbols(hs[i := h])
  {
  }

  /** Appending a live holding for a symbol not yet held keeps the holdings live and uniquely keyed. */
  lemma AppendKeepsInvariant(hs: seq<Holding>, h: Holding)
    requires LiveHolding(h) && !Holds(hs, h.symbol)
    requires AllLive(hs) && UniqueSymbols(hs)
    ensures AllLive(hs + [h]) && UniqueSymbols(hs + [h])
  {
    var r := hs + [h];
    forall a, b | 0 <= a < b < |r| ensures r[a].symbol != r[b].symbol {
      if b == |hs| {
        assert r[a] == hs[a];
      }
    }
  }

  /** Removing a holding keeps the others live and uniquely keyed, and its symbol is then no longer held. */
  lemma RemoveKeepsInvariant(hs: seq<Holding>, i: nat)
    requires i < |hs|
    requires AllLive(hs) && UniqueSymbols(hs)
    ensures AllLive(hs[..i] + hs[i + 1..]) && UniqueSymbols(hs[..i] + hs[i + 1..])
    ensures |hs[..i] + hs[i + 1..]| == |hs| - 1
    ensures !Holds(hs[..i] + hs[i + 1..], hs[i].symbol)
  {
    var r := hs[..i] + hs[i + 1..];
    assert forall j :: 0 <= j < |r| ==> r[j] == (if j < i then hs[j] else hs[j + 1]);
  }

  /** A holding cast from a non-blank symbol with a positive quantity and non-negative amounts in cents is live. */
  lemma CastHoldingLive(symbol: string, quantity: real, averageBuyPrice: real, totalInvested: real, currentValue: real)
    requires Trim(symbol) != [] && quantity > 0.0 && averageBuyPrice >= 0.0
    requires totalInvested >= 0.0 && IsCents(totalInvested)
    ensures LiveHolding(CastHolding(symbol, quantity, averageBuyPrice, totalInvested, currentValue))
  {
  }

  // ---------------------------------------------------------------------------
  // Buy
  // ---------------------------------------------------------------------------

  lemma TradePositive(o: Order)
    requires o.quantity > 0.0 && o.price > 0.0
    ensures TradeValue(o) > 0.0
  {
  }

  /** The lookup key of an order is a symbol in stored form, and casting it again gives it back. */
  lemma KeyIsStored(o: Order)
    requires ValidOrder(o)
    ensures StoredSymbol(Normalize(o.symbol))
    ensures Trim(Normalize(o.symbol)) != [] && Normalize(Normalize(o.symbol)) == Normalize(o.symbol)
  {
    NormalizeIsNormal(o.symbol);
    NormalizeNonEmpty(o.symbol);
    NormalizeIdempotent(o.symbol);
    NormalizeNonEmpty(Normalize(o.symbol));
  }

  /** The holding a buy opens is live, kept under the order's key, with the cost rounded to cents as its amount invested. */
  lemma OpenHoldingLive(o: Order, quote: real)
    requires ValidOrder(o)
    ensures var h := OpenHolding(Normalize(o.symbol), o, quote);
      && LiveHolding(h) && h.symbol == Normalize(o.symbol)
      && h.quantity == o.quantity && h.averageBuyPrice == o.price
      && h.totalInvested == Round2(TradeValue(o))
  {
    TradePositive(o);
    KeyIsStored(o);
    CastHoldingLive(Normalize(o.symbol), o.quantity, o.price, Round2(TradeValue(o)), o.quantity * quote);
  }

  /** The holding a buy merges into stays live: its quantity grows and its amounts stay non-negative cents. */
  lemma MergeBuyLive(h: Holding, o: Order, quote: real)
    requires LiveHolding(h) && o.quantity > 0.0 && o.price > 0.0
    ensures LiveHolding(MergeBuy(h, o, quote))
    ensures MergeBuy(h, o, quote).symbol == h.symbol
    ensures MergeBuy(h, o, quote).quantity == h.quantity + o.quantity
  {
    var quantity := h.quantity + o.quantity;
    var invested := h.totalInvested + TradeValue(o);
    TradePositive(o);
    assert invested / quantity >= 0.0;
  }

  /** A buy keeps every holding live and the symbols unique, and afterwards the key is held. */
  lemma BuyHoldingsKeepInvariant(hs: seq<Holding>, o: Order, quote: real)
    requires ValidOrder(o)
    requires AllLive(hs) && UniqueSymbols(hs)
    ensures var r := BuyHoldings(hs, Normalize(o.symbol), o, quote);
      AllLive(r) && UniqueSymbols(r) && Holds(r, Normalize(o.symbol))
  {
    var key := Normalize(o.symbol);
    var r := BuyHoldings(hs, key, o, quote);
    if Holds(hs, key) {
      var i := IndexOf(hs, key);
      MergeBuyLive(hs[i], o, quote);
      ReplaceKeepsInvariant(hs, i, MergeBuy(hs[i], o, quote));
      assert r[i].symbol == key;
    } else {
      OpenHoldingLive(o, quote);
      AppendKeepsInvariant(hs, OpenHolding(key, o, quote));
      assert r[|hs|].symbol == key;
    }
  }

  /** Merging a buy adds exactly the trade cost rounded to cents to a cost basis kept in cents. */
  lemma MergeBuyInvested(h: Holding, o: Order, quote: real)
    requires h.quantity + o.quantity != 0.0 && IsCents(h.totalInvested)
    ensures MergeBuy(h, o, quote).totalInvested == h.totalInvested + Round2(TradeValue(o))
  {
    Round2ShiftByCents(h.totalInvested, TradeValue(o));
  }

  /**
   * Cost basis accounting of a buy: the portfolio's summed amount invested grows by
   * exactly the trade cost rounded to cents, whether the trade merges into a holding
   * or opens one.
   */
  lemma BuyCostBasis(hs: seq<Holding>, symbol: string, o: Order, quote: real)
    requires o.quantity > 0.0 && AllLive(hs)
    ensures Sum(BuyHoldings(hs, symbol, o, quote), Invested) == Sum(hs, Invested) + Round2(TradeValue(o))
  {
    if Holds(hs, symbol) {
      var i := IndexOf(hs, symbol);
      MergeBuyInvested(hs[i], o, quote);
      SumUpdate(hs, i, MergeBuy(hs[i], o, quote), Invested);
    } else {
      SumAppend(hs, OpenHolding(symbol, o, quote), Invested);
    }
  }

  /**
   * The average after merging a buy into any held position lies between the old
   * amount invested per unit and the trade price, up to rounding to cents. The
   * bound is on the amount invested per unit, not on the stored average: the two
   * drift apart because the amount invested is stored rounded to cents
   * (`RepeatBuyMovesAverage`).
   */
  lemma MergeBuyAverage(h: Holding, o: Order, quote: real)
    requires h.quantity > 0.0 && o.quantity > 0.0
    ensures var unit := h.totalInvested / h.quantity;
            var low := if unit <= o.price then unit else o.price;
            var high := if unit <= o.price then o.price else unit;
            Round2(low) <= MergeBuy(h, o, quote).averageBuyPrice <= Round2(high)
  {
    var unit := h.totalInvested / h.quantity;
    var low := if unit <= o.price then unit else o.price;
    var high := if unit <= o.price then o.price else unit;
    var mean := (h.totalInvested + TradeValue(o)) / (h.quantity + o.quantity);
    MergeBuyMean(h, o, quote);
    MergeMeanBetween(h, o, low, high);
    Round2Monotone(low, mean);
    Round2Monotone(mean, high);
  }

  /** Before rounding, the merged average lies between the amount invested per unit and the trade price. */
  lemma MergeMeanBetween(h: Holding, o: Order, low: real, high: real)
    requires h.quantity > 0.0 && o.quantity > 0.0
    requires low <= h.totalInvested / h.quantity <= high && low <= o.price <= high
    ensures low <= (h.totalInvested + TradeValue(o)) / (h.quantity + o.quantity) <= high
  {
    var unit := h.totalInvested / h.quantity;
    var num := h.totalInvested + TradeValue(o);
    assert num == h.quantity * unit + o.quantity * o.price;
    WeightedMeanBetween(h.quantity, unit, o.quantity, o.price, num, low, high);
  }

  /**
   * Buying 0.1 units at 0.05 twice: the first buy stores an average of 0.05 but an
   * amount invested of 0.01 (half a cent rounded up), so the second buy at the same
   * price moves the stored average to 0.08.
   */
  lemma RepeatBuyMovesAverage(quote: real)
    ensures var o := Order("X", 0.1, 0.05);
            var first := BuyHoldings([], "X", o, quote);
            var second := BuyHoldings(first, "X", o, quote);
            && |first| == 1 && LiveHolding(first[0])
            && first[0].averageBuyPrice == 0.05 && first[0].totalInvested == 0.01
            && |second| == 1 && second[0].averageBuyPrice == 0.08 && second[0].totalInvested == 0.02
  {
    var o := Order("X", 0.1, 0.05);
    assert Round2(0.005) == 0.01 by {
      assert (0.005 * 100.0 + 0.5).Floor == 1;
    }
    assert Round2(0.015) == 0.02 by {
      assert (0.015 * 100.0 + 0.5).Floor == 2;
    }
    assert Round2(0.075) == 0.08 by {
      assert (0.075 * 100.0 + 0.5).Floor == 8;
    }
    var first := BuyHoldings([], "X", o, quote);
    assert first == [OpenHolding("X", o, quote)];
    assert Trim("X") == "X" by {
      assert SkipSpaces("X", 0) == 0;
      assert ContentEnd("X", 1) == 1;
    }
    assert ToUpper("X") == "X";
    assert first[0].symbol == "X";
    assert IsCents(0.01) by {
      assert (0.01 * 100.0).Floor == 1;
    }
    assert Holds(first, "X") && IndexOf(first, "X") == 0;
    var merged := MergeBuy(first[0], o, quote);
    assert merged.quantity == 0.2 && 0.015 / 0.2 == 0.075;
    assert BuyHoldings(first, "X", o, quote) == [merged];
  }

  lemma MergeBuyMean(h: Holding, o: Order, quote: real)
    requires h.quantity >= 0.0 && o.quantity > 0.0
    ensures MergeBuy(h, o, quote).averageBuyPrice == Round2((h.totalInvested + TradeValue(o)) / (h.quantity + o.quantity))
  {
  }

  /** A quantity-weighted mean of two prices lies between them. */
  lemma WeightedMeanBetween(qa: real, a: real, qb: real, b: real, total: real, low: real, high: real)
    requires qa >= 0.0 && qb > 0.0
    requires low <= a <= high && low <= b <= high
    requires total == qa * a + qb * b
    ensures low <= total / (qa + qb) <= high
  {
    SumBelow(qa, a, qb, b, low);
    SumAbove(qa, a, qb, b, high);
    BoundsOfQuotient(qa + qb, total, low, high);
  }

  lemma ScaleMonotone(k: real, x: real, y: real)
    requires k >= 0.0 && x <= y
    ensures k * x <= k * y
  {
  }

  lemma SumBelow(qa: real, a: real, qb: real, b: real, low: real)
    requires qa >= 0.0 && qb >= 0.0 && low <= a && low <= b
    ensures (qa + qb) * low <= qa * a + qb * b
  {
    ScaleMonotone(qa, low, a);
    ScaleMonotone(qb, low, b);
  }

  lemma SumAbove(qa: real, a: real, qb: real, b: real, high: real)
    requires qa >= 0.0 && qb >= 0.0 && a <= high && b <= high
    ensures qa * a + qb * b <= (qa + qb) * high
  {
    ScaleMonotone(qa, a, high);
    ScaleMonotone(qb, b, high);
  }

  lemma BoundsOfQuotient(w: real, x: real, low: real, high: real)
    requires w > 0.0 && w * low <= x <= w * high
    ensures low <= x / w <= high
  {
  }

  /** Buying 10 at 100 and then 10 at 200 gives 20 units at an average of 150 with 3000 invested. */
  lemma AverageCostExample(quote: real)
    ensures var first := BuyHoldings([], "AAPL", Order("AAPL", 10.0, 100.0), quote);
            var second := BuyHoldings(first, "AAPL", Order("AAPL", 10.0, 200.0), quote);
            |second| == 1 && second[0].quantity == 20.0 && second[0].averageBuyPrice == 150.0 && second[0].totalInvested == 3000.0
  {
    var first := BuyHoldings([], "AAPL", Order("AAPL", 10.0, 100.0), quote);
    FirstPurchase(quote);
    assert IndexOf(first, "AAPL") == 0;
    Round2OfCents(3000.0);
    Round2OfCents(150.0);
  }

  /** The first purchase of a symbol opens a holding at the trade's price and cost. */
  lemma FirstPurchase(quote: real)
    ensures BuyHoldings([], "AAPL", Order("AAPL", 10.0, 100.0), quote) == [Holding("AAPL", 10.0, 100.0, 1000.0, 10.0 * quote, 0.0, 0.0)]
  {
    NormalIsFixed("AAPL");
    assert Normalize("AAPL") == "AAPL";
    assert TradeValue(Order("AAPL", 10.0, 100.0)) == 1000.0;
    Round2OfCents(1000.0);
  }

  // ---------------------------------------------------------------------------
  // Sell
  // ---------------------------------------------------------------------------

  /**
   * A partial sell keeps the holding live under the same symbol and average price,
   * with the quantity reduced by exactly the amount sold and the amount invested
   * within half a cent of the per-unit amount invested times the units left.
   */
  lemma ReduceHoldingLive(h: Holding, o: Order, quote: real)
    requires LiveHolding(h) && o.quantity > 0.0 && h.quantity > o.quantity
    ensures var r := ReduceHolding(h, o, quote);
      && LiveHolding(r)
      && r.symbol == h.symbol && r.averageBuyPrice == h.averageBuyPrice
      && r.quantity == h.quantity - o.quantity
      && var exact := (h.totalInvested / h.quantity) * (h.quantity - o.quantity);
         exact - 0.005 < r.totalInvested <= exact + 0.005
  {
    var remaining := h.quantity - o.quantity;
    var perUnit := h.totalInvested / h.quantity;
    assert perUnit >= 0.0;
    ScaleMonotone(remaining, 0.0, perUnit);
    assert perUnit * remaining >= 0.0;
  }

  /** A sell keeps every holding live and the symbols unique; a sell of the whole holding removes its symbol. */
  lemma SellHoldingsKeepInvariant(hs: seq<Holding>, i: nat, o: Order, quote: real)
    requires i < |hs| && o.quantity > 0.0 && hs[i].quantity >= o.quantity
    requires AllLive(hs) && UniqueSymbols(hs)
    ensures var r := SellHoldings(hs, i, o, quote);
      && AllLive(r) && UniqueSymbols(r)
      && (hs[i].quantity == o.quantity ==> |r| == |hs| - 1 && !Holds(r, hs[i].symbol))
      && (hs[i].quantity > o.quantity ==> |r| == |hs| && r[i].symbol == hs[i].symbol && r[i].quantity == hs[i].quantity - o.quantity)
  {
    if hs[i].quantity - o.quantity == 0.0 {
      RemoveKeepsInvariant(hs, i);
    } else {
      ReduceHoldingLive(hs[i], o, quote);
      ReplaceKeepsInvariant(hs, i, ReduceHolding(hs[i], o, quote));
    }
  }

  /** A sell touches only the holding sold from: every other holding keeps its value and relative order. */
  lemma SellLeavesOthers(hs: seq<Holding>, i: nat, o: Order, quote: real, j: nat)
    requires i < |hs| && o.quantity > 0.0 && hs[i].quantity >= o.quantity
    requires j < |hs| && j != i
    ensures var r := SellHoldings(hs, i, o, quote);
      var k := if hs[i].quantity == o.quantity && j > i then j - 1 else j;
      k < |r| && r[k] == hs[j]
  {
  }

  /**
   * Cost basis accounting of a sell: a full sell takes the holding's whole amount
   * invested out of the portfolio's sum; a partial sell replaces it by the reduced
   * holding's amount invested.
   */
  lemma SellCostBasis(hs: seq<Holding>, i: nat, o: Order, quote: real)
    requires i < |hs| && o.quantity > 0.0 && hs[i].quantity >= o.quantity
    ensures hs[i].quantity == o.quantity ==>
      Sum(SellHoldings(hs, i, o, quote), Invested) == Sum(hs, Invested) - hs[i].totalInvested
    ensures hs[i].quantity > o.quantity ==>
      Sum(SellHoldings(hs, i, o, quote), Invested)
        == Sum(hs, Invested) - hs[i].totalInvested + ReduceHolding(hs[i], o, quote).totalInvested
  {
    if hs[i].quantity == o.quantity {
      SumRemove(hs, i, Invested);
    } else {
      SumUpdate(hs, i, ReduceHolding(hs[i], o, quote), Invested);
    }
  }

  /** Selling 10 of a holding of 20 with 3000 invested leaves 10 with 1500 invested, still at an average of 150. */
  lemma ProportionalSellExample(quote: real)
    ensures var r := SellHoldings([Holding("AAPL", 20.0, 150.0, 3000.0, 0.0, 0.0, 0.0)], 0, Order("AAPL", 10.0, 180.0), quote);
            |r| == 1 && r[0].quantity == 10.0 && r[0].totalInvested == 1500.0 && r[0].averageBuyPrice == 150.0
  {
    Round2OfCents(1500.0);
  }

  // ---------------------------------------------------------------------------
  // The ledger invariant
  // ---------------------------------------------------------------------------

  /** Under the ledger invariant every held quantity is positive, which is what a buy asks of the holdings. */
  lemma WfQuantitiesPositive(userId: UserId, s: Ledger)
    requires Wf(userId, s)
    ensures AllLive(Holdings(s)) && UniqueSymbols(Holdings(s))
    ensures forall j :: 0 <= j < |Holdings(s)| ==> Holdings(s)[j].quantity > 0.0
  {
  }

  /** Holdings that are live and uniquely keyed, stored with their recomputed totals, make a consistent portfolio. */
  lemma StoredBookOk(hs: seq<Holding>)
    requires AllLive(hs) && UniqueSymbols(hs)
    ensures BookOk(Book(hs, CalculatePortfolioTotals(hs)))
  {
  }

  lemma AmountIsProduct(t: Transaction, o: Order)
    requires t.quantity == o.quantity && t.price == o.price && t.totalAmount == TradeValue(o)
    ensures t.totalAmount == t.quantity * t.price
  {
  }

  lemma EntrySchema(userId: UserId, kind: TxType, o: Order)
    requires ValidOrder(o)
    ensures SchemaTransaction(NewTransaction(userId, kind, o.symbol, o.quantity, o.price, TradeValue(o)))
  {
    TradePositive(o);
  }

  /** The record a trade appends passes the schema, belongs to the user and carries quantity times price. */
  lemma EntryRecorded(userId: UserId, kind: TxType, o: Order)
    requires ValidOrder(o)
    ensures Recorded(userId, NewTransaction(userId, kind, o.symbol, o.quantity, o.price, TradeValue(o)))
  {
    var t := NewTransaction(userId, kind, o.symbol, o.quantity, o.price, TradeValue(o));
    EntrySchema(userId, kind, o);
    AmountIsProduct(t, o);
    RecordedOf(userId, t);
  }

  lemma RecordedOf(userId: UserId, t: Transaction)
    requires SchemaTransaction(t) && t.userId == userId && t.quantity > 0.0 && t.price > 0.0
    requires t.totalAmount == t.quantity * t.price
    ensures Recorded(userId, t)
  {
  }

  lemma LogExtend(userId: UserId, log: seq<Transaction>, t: Transaction)
    requires forall k :: 0 <= k < |log| ==> Recorded(userId, log[k])
    requires Recorded(userId, t)
    ensures forall k :: 0 <= k < |log + [t]| ==> Recorded(userId, (log + [t])[k])
  {
  }

  /** An accepted or refused buy order keeps the ledger invariant. */
  lemma BuyOrderKeepsWf(userId: UserId, s: Ledger, o: Order, quote: real)
    requires Wf(userId, s) && ValidOrder(o)
    ensures forall j :: 0 <= j < |Holdings(s)| ==> Holdings(s)[j].quantity >= 0.0
    ensures Wf(userId, BuyOrder(userId, s, o, quote).ledger)
  {
    WfQuantitiesPositive(userId, s);
    var r := BuyOrder(userId, s, o, quote);
    if r.result.Success? {
      var hs := BuyHoldings(Holdings(s), Normalize(o.symbol), o, quote);
      BuyHoldingsKeepInvariant(Holdings(s), o, quote);
      StoredBookOk(hs);
      EntryRecorded(userId, BUY, o);
      LogExtend(userId, s.log, NewTransaction(userId, BUY, o.symbol, o.quantity, o.price, TradeValue(o)));
    }
  }

  /** An accepted or refused sell order keeps the ledger invariant. */
  lemma SellOrderKeepsWf(userId: UserId, s: Ledger, o: Order, quote: real)
    requires Wf(userId, s) && ValidOrder(o)
    ensures Wf(userId, SellOrder(userId, s, o, quote).ledger)
  {
    WfQuantitiesPositive(userId, s);
    var r := SellOrder(userId, s, o, quote);
    if r.result.Success? {
      var i := IndexOf(Holdings(s), Normalize(o.symbol));
      var hs := SellHoldings(Holdings(s), i, o, quote);
      SellHoldingsKeepInvariant(Holdings(s), i, o, quote);
      StoredBookOk(hs);
      EntryRecorded(userId, SELL, o);
      LogExtend(userId, s.log, NewTransaction(userId, SELL, o.symbol, o.quantity, o.price, TradeValue(o)));
    }
  }

  /** `buyStock` keeps the ledger invariant, whatever the request carries. */
  lemma BuyKeepsWf(userId: UserId, s: Ledger, symbol: JsValue, quantity: JsValue, price: JsValue, quote: real)
    requires Wf(userId, s)
    ensures forall j :: 0 <= j < |Holdings(s)| ==> Holdings(s)[j].quantity >= 0.0
    ensures Wf(userId, Buy(userId, s, symbol, quantity, price, quote).ledger)
  {
    WfQuantitiesPositive(userId, s);
    var p := ParseOrder(symbol, quantity, price);
    if p.Success? {
      BuyOrderKeepsWf(userId, s, p.value, quote);
    }
  }

  /** `sellStock` keeps the ledger invariant, whatever the request carries. */
  lemma SellKeepsWf(userId: UserId, s: Ledger, symbol: JsValue, quantity: JsValue, price: JsValue, quote: real)
    requires Wf(userId, s)
    ensures Wf(userId, Sell(userId, s, symbol, quantity, price, quote).ledger)
  {
    var p := ParseOrder(symbol, quantity, price);
    if p.Success? {
      SellOrderKeepsWf(userId, s, p.value, quote);
    }
  }

  /** Deposits and withdrawals keep the ledger invariant: in particular no withdrawal takes the balance below 0. */
  lemma CashKeepsWf(userId: UserId, s: Ledger, amount: real)
    requires Wf(userId, s)
    ensures Wf(userId, Deposit(s, amount).ledger)
    ensures Wf(userId, Withdraw(s, amount).ledger)
  {
  }

  /** Refreshing prices keeps the ledger invariant. */
  lemma RefreshKeepsWf(userId: UserId, s: Ledger, oracle: string -> real)
    requires Wf(userId, s)
    ensures Wf(userId, Refresh(s, oracle))
  {
    WfQuantitiesPositive(userId, s);
    var hs := Holdings(s);
    var rs := Holdings(Refresh(s, oracle));
    forall j | 0 <= j < |rs| ensures LiveHolding(rs[j]) {
      assert LiveHolding(hs[j]);
    }
    forall a, b | 0 <= a < b < |rs| ensures rs[a].symbol != rs[b].symbol {
      assert hs[a].symbol != hs[b].symbol;
    }
    StoredBookOk(rs);
  }

  /** Reading the portfolio twice at the same prices stores the same portfolio as reading it once. */
  lemma RefreshIdempotent(s: Ledger, oracle: string -> real)
    ensures Refresh(Refresh(s, oracle), oracle) == Refresh(s, oracle)
  {
    RevalueAllIdempotent(Holdings(s), oracle);
  }

  // ---------------------------------------------------------------------------
  // Sequences of requests
  // ---------------------------------------------------------------------------

  /** A request against one user's ledger, with the price the oracle answers for it. */
  datatype Op =
    | BuyOp(symbol: JsValue, quantity: JsValue, price: JsValue, quote: real)
    | SellOp(symbol: JsValue, quantity: JsValue, price: JsValue, quote: real)
    | DepositOp(amount: real)
    | WithdrawOp(amount: real)
    | RefreshOp(oracle: string -> real)

  /** The ledger after one request, accepted or refused. */
  function Apply(userId: UserId, s: Ledger, op: Op): (r: Ledger)
    requires Wf(userId, s)
    ensures Wf(userId, r)
  {
    match op
    case BuyOp(symbol, quantity, price, quote) =>
      BuyKeepsWf(userId, s, symbol, quantity, price, quote);
      Buy(userId, s, symbol, quantity, price, quote).ledger
    case SellOp(symbol, quantity, price, quote) =>
      SellKeepsWf(userId, s, symbol, quantity, price, quote);
      Sell(userId, s, symbol, quantity, price, quote).ledger
    case DepositOp(amount) =>
      CashKeepsWf(userId, s, amount);
      Deposit(s, amount).ledger
    case WithdrawOp(amount) =>
      CashKeepsWf(userId, s, amount);
      Withdraw(s, amount).ledger
    case RefreshOp(oracle) =>
      RefreshKeepsWf(userId, s, oracle);
      Refresh(s, oracle)
  }

  /** The ledger after a sequence of requests, each applied to the result of the one before; the invariant holds throughout. */
  function Run(userId: UserId, s: Ledger, ops: seq<Op>): (r: Ledger)
    requires Wf(userId, s)
    ensures Wf(userId, r)
    decreases |ops|
  {
    if ops == [] then s else Run(userId, Apply(userId, s, ops[0]), ops[1..])
  }

  /** What a recorded trade did to the balance: a buy took its amount out, a sell put it in. */
  function CashFlow(t: Transaction): real {
    if t.kind == BUY then -t.totalAmount else t.totalAmount
  }

  /** The summed cash flow of a log. */
  function NetCashFlow(log: seq<Transaction>): real {
    if log == [] then 0.0 else NetCashFlow(log[..|log| - 1]) + CashFlow(log[|log| - 1])
  }

  lemma NetCashFlowAppend(log: seq<Transaction>, t: Transaction)
    ensures NetCashFlow(log + [t]) == NetCashFlow(log) + CashFlow(t)
  {
    assert (log + [t])[..|log|] == log;
  }

  predicate IsTrade(op: Op) {
    op.BuyOp? || op.SellOp?
  }

  /** One trade moves the balance by exactly the cash flow of the record it appends; a refused one appends nothing. */
  lemma TradeConserves(userId: UserId, s: Ledger, op: Op)
    requires Wf(userId, s) && IsTrade(op)
    ensures var r := Apply(userId, s, op);
      && (r.log == s.log || exists t :: r.log == s.log + [t])
      && r.balance == s.balance + NetCashFlow(r.log) - NetCashFlow(s.log)
  {
    var r := Apply(userId, s, op);
    if r.log != s.log {
      var o := ParseOrder(op.symbol, op.quantity, op.price).value;
      var t := NewTransaction(userId, if op.BuyOp? then BUY else SELL, o.symbol, o.quantity, o.price, TradeValue(o));
      assert r.log == s.log + [t];
      NetCashFlowAppend(s.log, t);
    }
  }

  /** Cash requests and price refreshes leave the log alone. */
  lemma NonTradeKeepsLog(userId: UserId, s: Ledger, op: Op)
    requires Wf(userId, s) && !IsTrade(op)
    ensures Apply(userId, s, op).log == s.log
  {
  }

  lemma ApplyExtendsLog(userId: UserId, s: Ledger, op: Op)
    requires Wf(userId, s)
    ensures |s.log| <= |Apply(userId, s, op).log| && Apply(userId, s, op).log[..|s.log|] == s.log
  {
    if IsTrade(op) {
      TradeConserves(userId, s, op);
    } else {
      NonTradeKeepsLog(userId, s, op);
    }
  }

  lemma PrefixOfPrefix(a: seq<Transaction>, b: seq<Transaction>, c: seq<Transaction>)
    requires |a| <= |b| <= |c| && c[..|b|] == b && b[..|a|] == a
    ensures c[..|a|] == a
  {
    assert c[..|a|] == c[..|b|][..|a|];
  }

  /** The log only grows: after any sequence of requests the earlier log is a prefix of the new one. */
  lemma {:induction false} RunExtendsLog(userId: UserId, s: Ledger, ops: seq<Op>)
    requires Wf(userId, s)
    ensures |s.log| <= |Run(userId, s, ops).log| && Run(userId, s, ops).log[..|s.log|] == s.log
    decreases |ops|
  {
    if ops != [] {
      var next := Apply(userId, s, ops[0]);
      ApplyExtendsLog(userId, s, ops[0]);
      RunExtendsLog(userId, next, ops[1..]);
      PrefixOfPrefix(s.log, next.log, Run(userId, next, ops[1..]).log);
    }
  }

  /**
   * Conservation of money over any sequence of buy and sell requests, accepted or
   * refused: the balance changes by exactly the sale values minus the purchase
   * costs of the records the log gained.
   */
  lemma {:induction false} RunConserves(userId: UserId, s: Ledger, ops: seq<Op>)
    requires Wf(userId, s)
    requires forall k :: 0 <= k < |ops| ==> IsTrade(ops[k])
    ensures Run(userId, s, ops).balance == s.balance + NetCashFlow(Run(userId, s, ops).log) - NetCashFlow(s.log)
    decreases |ops|
  {
    if ops != [] {
      TradeConserves(userId, s, ops[0]);
      RunConserves(userId, Apply(userId, s, ops[0]), ops[1..]);
    }
  }

  /** A buy request that passes validation is the buy of the order it carries. */
  lemma BuyIsBuyOrder(userId: UserId, s: Ledger, symbol: JsValue, quantity: JsValue, price: JsValue, quote: real)
    requires Wf(userId, s)
    requires ParseOrder(symbol, quantity, price).Success?
    ensures forall j :: 0 <= j < |Holdings(s)| ==> Holdings(s)[j].quantity >= 0.0
    ensures Buy(userId, s, symbol, quantity, price, quote) == BuyOrder(userId, s, ParseOrder(symbol, quantity, price).value, quote)
  {
    WfQuantitiesPositive(userId, s);
  }

  /** A valid buy request the balance does not cover is refused and changes nothing. */
  lemma BuyRefused(userId: UserId, s: Ledger, symbol: JsValue, quantity: JsValue, price: JsValue, quote: real)
    requires Wf(userId, s)
    requires ParseOrder(symbol, quantity, price).Success?
    requires s.balance < TradeValue(ParseOrder(symbol, quantity, price).value)
    ensures var o := ParseOrder(symbol, quantity, price).value;
            Buy(userId, s, symbol, quantity, price, quote) == Step(s, Failure(InsufficientBalance(TradeValue(o), s.balance)))
  {
    BuyIsBuyOrder(userId, s, symbol, quantity, price, quote);
  }

  /** The outcome of a buy order the balance covers. */
  lemma BuyOrderAccepted(userId: UserId, s: Ledger, o: Order, quote: real)
    requires ValidOrder(o)
    requires forall j :: 0 <= j < |Holdings(s)| ==> Holdings(s)[j].quantity >= 0.0
    requires s.balance >= TradeValue(o)
    ensures var r := BuyOrder(userId, s, o, quote);
            var holdings := BuyHoldings(Holdings(s), Normalize(o.symbol), o, quote);
            && r.ledger.balance == s.balance - TradeValue(o)
            && r.ledger.book == Some(Book(holdings, CalculatePortfolioTotals(holdings)))
            && r.ledger.log == s.log + [NewTransaction(userId, BUY, o.symbol, o.quantity, o.price, TradeValue(o))]
            && r.result == Success(Receipt(BUY, ToUpper(o.symbol), o.quantity, o.price, TradeValue(o), Round2(r.ledger.balance)))
  {
  }

  /** The outcome of a buy request the balance covers; the invariant is kept by `BuyKeepsWf`. */
  lemma BuyAccepted(userId: UserId, s: Ledger, symbol: JsValue, quantity: JsValue, price: JsValue, quote: real)
    requires Wf(userId, s)
    requires ParseOrder(symbol, quantity, price).Success?
    requires s.balance >= TradeValue(ParseOrder(symbol, quantity, price).value)
    ensures var o := ParseOrder(symbol, quantity, price).value;
            var r := Buy(userId, s, symbol, quantity, price, quote);
            var holdings := BuyHoldings(Holdings(s), Normalize(o.symbol), o, quote);
            && r.ledger == Ledger(s.balance - TradeValue(o), Some(Book(holdings, CalculatePortfolioTotals(holdings))),
                                  s.log + [NewTransaction(userId, BUY, o.symbol, o.quantity, o.price, TradeValue(o))])
            && r.result == Success(Receipt(BUY, ToUpper(o.symbol), o.quantity, o.price, TradeValue(o), Round2(r.ledger.balance)))
  {
    var o := ParseOrder(symbol, quantity, price).value;
    BuyIsBuyOrder(userId, s, symbol, quantity, price, quote);
    BuyOrderAccepted(userId, s, o, quote);
  }

  /** Why a valid sell order is refused, if it is: no portfolio, no holding of the symbol, or too few shares in it. */
  lemma SellOrderOutcomes(userId: UserId, s: Ledger, o: Order, quote: real)
    requires ValidOrder(o)
    ensures var r := SellOrder(userId, s, o, quote);
            var i := IndexOf(Holdings(s), Normalize(o.symbol));
            && (r.result == Failure(PortfolioNotFound) <==> s.book.None?)
            && (r.result == Failure(HoldingNotFound) <==> s.book.Some? && !Holds(Holdings(s), Normalize(o.symbol)))
            && (r.result.Failure? && r.result.error.InsufficientQuantity? <==>
                  s.book.Some? && i >= 0 && Holdings(s)[i].quantity < o.quantity)
            && (r.result.Success? <==> s.book.Some? && i >= 0 && Holdings(s)[i].quantity >= o.quantity)
  {
  }

  /** A sell request that passes validation is the sell of the order it carries. */
  lemma SellIsSellOrder(userId: UserId, s: Ledger, symbol: JsValue, quantity: JsValue, price: JsValue, quote: real)
    requires ParseOrder(symbol, quantity, price).Success?
    ensures Sell(userId, s, symbol, quantity, price, quote) == SellOrder(userId, s, ParseOrder(symbol, quantity, price).value, quote)
  {
  }

  /** The outcome of a sell request whose holding covers the quantity sold; the invariant is kept by `SellKeepsWf`. */
  lemma SellAccepted(userId: UserId, s: Ledger, symbol: JsValue, quantity: JsValue, price: JsValue, quote: real, i: nat)
    requires ParseOrder(symbol, quantity, price).Success?
    requires s.book.Some?
    requires var o := ParseOrder(symbol, quantity, price).value;
             i < |Holdings(s)| && i == IndexOf(Holdings(s), Normalize(o.symbol)) && Holdings(s)[i].quantity >= o.quantity
    ensures var o := ParseOrder(symbol, quantity, price).value;
            var r := Sell(userId, s, symbol, quantity, price, quote);
            var holdings := SellHoldings(Holdings(s), i, o, quote);
            && r.ledger == Ledger(s.balance + TradeValue(o), Some(Book(holdings, CalculatePortfolioTotals(holdings))),
                                  s.log + [NewTransaction(userId, SELL, o.symbol, o.quantity, o.price, TradeValue(o))])
            && r.result == Success(Receipt(SELL, ToUpper(o.symbol), o.quantity, o.price, TradeValue(o), Round2(r.ledger.balance)))
  {
    var o := ParseOrder(symbol, quantity, price).value;
    SellIsSellOrder(userId, s, symbol, quantity, price, quote);
    SellOrderAccepted(userId, s, o, quote, i);
  }

  /** The three ways a valid sell request is refused, each leaving the ledger as it was. */
  lemma SellRefused(userId: UserId, s: Ledger, symbol: JsValue, quantity: JsValue, price: JsValue, quote: real)
    requires ParseOrder(symbol, quantity, price).Success?
    ensures var o := ParseOrder(symbol, quantity, price).value;
            var r := Sell(userId, s, symbol, quantity, price, quote);
            var i := IndexOf(Holdings(s), Normalize(o.symbol));
            && (s.book.None? ==> r == Step(s, Failure(PortfolioNotFound)))
            && (s.book.Some? && i == -1 ==> r == Step(s, Failure(HoldingNotFound)))
            && (s.book.Some? && i >= 0 && Holdings(s)[i].quantity < o.quantity ==>
                  r == Step(s, Failure(InsufficientQuantity(Holdings(s)[i].quantity, o.quantity))))
  {
    SellIsSellOrder(userId, s, symbol, quantity, price, quote);
  }

  /** A sell order whose holding covers the quantity sold goes through. */
  lemma SellOrderSucceeds(userId: UserId, s: Ledger, o: Order, quote: real, i: nat)
    requires ValidOrder(o) && s.book.Some?
    requires i < |Holdings(s)| && i == IndexOf(Holdings(s), Normalize(o.symbol))
    requires Holdings(s)[i].quantity >= o.quantity
    ensures SellOrder(userId, s, o, quote).result.Success?
  {
  }

  /** The outcome of a sell order whose holding covers the quantity sold. */
  lemma SellOrderAccepted(userId: UserId, s: Ledger, o: Order, quote: real, i: nat)
    requires ValidOrder(o) && s.book.Some?
    requires i < |Holdings(s)| && i == IndexOf(Holdings(s), Normalize(o.symbol))
    requires Holdings(s)[i].quantity >= o.quantity
    ensures var r := SellOrder(userId, s, o, quote);
            var holdings := SellHoldings(Holdings(s), i, o, quote);
            && r.ledger.balance == s.balance + TradeValue(o)
            && r.ledger.book == Some(Book(holdings, CalculatePortfolioTotals(holdings)))
            && r.ledger.log == s.log + [NewTransaction(userId, SELL, o.symbol, o.quantity, o.price, TradeValue(o))]
            && r.result == Success(Receipt(SELL, ToUpper(o.symbol), o.quantity, o.price, TradeValue(o), Round2(r.ledger.balance)))
  {
    SellOrderSucceeds(userId, s, o, quote, i);
  }
}
