/**
 * The portfolio controller's handlers over three stored documents that they update
 * in place (the user's balance, the user's portfolio and the transaction
 * collection), one method per handler. Each method is proved to leave the
 * documents exactly as the matching ledger step prescribes and to give the same
 * reply, so everything proved about the steps holds of the methods. Like the
 * steps, the buy and sell handlers look a holding up by the symbol's stored form
 * (trimmed and upper-cased), not by the upper-cased symbol alone; the lookup as
 * the source writes it is modelled in `Findings`.
 */
module Controller {
  import opened Wrappers
  import opened Money
  import opened Text
  import opened Records
  import opened Validation
  import opened Valuation
  import opened Ledger
  import opened LedgerLaws

  /** The user document; of its fields only the balance (default 0) takes part in the ledger. */
  class Account {
    var balance: real

    constructor ()
      ensures balance == 0.0
    {
      balance := 0.0;
    }
  }

  /** A portfolio document: its owner, its holdings and the cached aggregates. */
  class Portfolio {
    const userId: UserId
    var holdings: seq<Holding>
    var totalValue: real
    var totalInvested: real
    var totalProfitLoss: real
    var profitLossPercentage: real

    /** `new Portfolio({ userId, holdings: [], ... })`: no holdings and every aggregate 0. */
    constructor (userId: UserId)
      ensures this.userId == userId && holdings == []
      ensures totalValue == 0.0 && totalInvested == 0.0 && totalProfitLoss == 0.0 && profitLossPercentage == 0.0
    {
      this.userId := userId;
      holdings := [];
      totalValue := 0.0;
      totalInvested := 0.0;
      totalProfitLoss := 0.0;
      profitLossPercentage := 0.0;
    }

    /** The document's content as a value. */
    function Content(): Book
      reads this
    {
      Book(holdings, PortfolioTotals(totalInvested, totalValue, totalProfitLoss, profitLossPercentage))
    }

    /**
     * The holding update of a buy under lookup key `key`: the holding kept for the
     * key is merged with the trade in place, or a new holding is pushed.
     */
    method AbsorbBuy(key: string, o: Order, quote: real)
      requires forall j :: 0 <= j < |holdings| ==> holdings[j].quantity >= 0.0
      requires o.quantity > 0.0
      modifies this
      ensures holdings == BuyHoldings(old(holdings), key, o, quote)
      ensures Content().totals == old(Content().totals)
    {
      var i := IndexOf(holdings, key);
      if i > -1 {
        holdings := holdings[i := MergeBuy(holdings[i], o, quote)];
      } else {
        holdings := holdings + [OpenHolding(key, o, quote)];
      }
    }

    /** The holding update of a sell from position `i`: splice the holding out when nothing remains, else reduce it in place. */
    method ReleaseSell(i: nat, o: Order, quote: real)
      requires i < |holdings| && o.quantity > 0.0 && holdings[i].quantity >= o.quantity
      modifies this
      ensures holdings == SellHoldings(old(holdings), i, o, quote)
      ensures Content().totals == old(Content().totals)
    {
      var holding := holdings[i];
      var remainingQuantity := holding.quantity - o.quantity;
      if remainingQuantity == 0.0 {
        holdings := holdings[..i] + holdings[i + 1..];
      } else {
        holdings := holdings[i := ReduceHolding(holding, o, quote)];
      }
    }

    /** Copies the totals of the current holdings into the four aggregate fields. */
    method UpdateTotals()
      modifies this
      ensures holdings == old(holdings)
      ensures Content() == Book(holdings, CalculatePortfolioTotals(holdings))
    {
      var totals := CalculatePortfolioTotals(holdings);
      totalValue := totals.totalValue;
      totalInvested := totals.totalInvested;
      totalProfitLoss := totals.totalProfitLoss;
      profitLossPercentage := totals.profitLossPercentage;
    }
  }

  /** The transaction collection, as far as one user's records go: it only ever grows. */
  class TransactionLog {
    var entries: seq<Transaction>

    constructor ()
      ensures entries == []
    {
      entries := [];
    }

    /** `addTransaction`: builds the record (symbol upper-cased, then trimmed by the schema) and appends it. */
    method AddTransaction(userId: UserId, kind: TxType, symbol: string, quantity: real, price: real, totalAmount: real)
      returns (t: Transaction)
      modifies this
      ensures t == NewTransaction(userId, kind, symbol, quantity, price, totalAmount)
      ensures entries == old(entries) + [t]
    {
      ToUpperIdempotent(symbol);
      t := NewTransaction(userId, kind, ToUpper(symbol), quantity, price, totalAmount);
      entries := entries + [t];
    }
  }

  /** A sale that passed every check: the order and the position of the holding it draws on. */
  datatype Sale = Sale(order: Order, index: nat)

  /** The handlers of one signed-in user over that user's documents; `portfolio` is null until one is created. */
  class PortfolioController {
    const userId: UserId
    const user: Account
    const transactions: TransactionLog
    var portfolio: Portfolio?

    /** The documents as a ledger value. */
    ghost function Snapshot(): Ledger
      reads this, user, transactions, portfolio
    {
      Ledger(user.balance, if portfolio == null then None else Some(portfolio.Content()), transactions.entries)
    }

    /** The portfolio, if any, is the user's own, and the documents satisfy the ledger invariant. */
    ghost predicate Valid()
      reads this, user, transactions, portfolio
    {
      && (portfolio != null ==> portfolio.userId == userId)
      && Wf(userId, Snapshot())
    }

    /** A new user: balance 0, no portfolio, no transactions. */
    constructor (userId: UserId)
      ensures Valid() && this.userId == userId
      ensures Snapshot() == NewLedger()
      ensures fresh(user) && fresh(transactions)
    {
      this.userId := userId;
      user := new Account();
      transactions := new TransactionLog();
      portfolio := null;
    }

    /** `buyStock`, with `quote` the price the oracle gives for the symbol. */
    method BuyStock(symbol: JsValue, quantity: JsValue, price: JsValue, quote: real) returns (result: Result<Receipt, Failure>)
      requires Valid()
      modifies this, user, transactions, portfolio
      ensures Valid()
      ensures Snapshot() == Buy(userId, old(Snapshot()), symbol, quantity, price, quote).ledger
      ensures result == Buy(userId, old(Snapshot()), symbol, quantity, price, quote).result
    {
      ghost var s := Snapshot();
      var errors := ValidateStockInput(symbol, quantity, price);
      if errors != [] {
        return Failure(InvalidInput(errors));
      }
      var o := ParseOrder(symbol, quantity, price).value;
      var totalCost := TradeValue(o);
      if user.balance < totalCost {
        BuyRefused(userId, s, symbol, quantity, price, quote);
        return Failure(InsufficientBalance(totalCost, user.balance));
      }
      BuyAccepted(userId, s, symbol, quantity, price, quote);
      BuyKeepsWf(userId, s, symbol, quantity, price, quote);
      ghost var after := Buy(userId, s, symbol, quantity, price, quote);
      OpenPortfolio();
      var receipt := SettleBuy(o, quote);
      result := Success(receipt);
      assert Snapshot() == after.ledger;
    }

    /** `Portfolio.findOne({ userId })`, or a new empty portfolio when there is none. */
    method OpenPortfolio()
      requires portfolio != null ==> portfolio.userId == userId
      modifies this
      ensures portfolio != null && portfolio.userId == userId
      ensures old(portfolio) != null ==> portfolio == old(portfolio)
      ensures old(portfolio) == null ==> fresh(portfolio) && portfolio.holdings == []
    {
      if portfolio == null {
        portfolio := new Portfolio(userId);
      }
    }

    /**
     * The writes of an accepted buy: find or create the portfolio, absorb the trade
     * into its holdings, debit the cost, record the trade, recompute the totals.
     */
    method SettleBuy(o: Order, quote: real) returns (receipt: Receipt)
      requires portfolio != null && ValidOrder(o)
      requires forall j :: 0 <= j < |portfolio.holdings| ==> portfolio.holdings[j].quantity >= 0.0
      modifies user, transactions, portfolio
      ensures user.balance == old(user.balance) - TradeValue(o)
      ensures transactions.entries == old(transactions.entries) + [NewTransaction(userId, BUY, o.symbol, o.quantity, o.price, TradeValue(o))]
      ensures var holdings := BuyHoldings(old(portfolio.holdings), Normalize(o.symbol), o, quote);
              portfolio.Content() == Book(holdings, CalculatePortfolioTotals(holdings))
      ensures receipt == Receipt(BUY, ToUpper(o.symbol), o.quantity, o.price, TradeValue(o), Round2(user.balance))
    {
      var upperSymbol := ToUpper(o.symbol);
      var totalCost := TradeValue(o);
      portfolio.AbsorbBuy(Normalize(o.symbol), o, quote);
      user.balance := user.balance - totalCost;
      UpperCasedTransaction(userId, BUY, o.symbol, o.quantity, o.price, totalCost);
      var _ := transactions.AddTransaction(userId, BUY, upperSymbol, o.quantity, o.price, totalCost);
      portfolio.UpdateTotals();
      receipt := Receipt(BUY, upperSymbol, o.quantity, o.price, totalCost, Round2(user.balance));
    }

    /** `sellStock`, with `quote` the price the oracle gives for the symbol. */
    method SellStock(symbol: JsValue, quantity: JsValue, price: JsValue, quote: real) returns (result: Result<Receipt, Failure>)
      requires Valid()
      modifies user, transactions, portfolio
      ensures Valid()
      ensures Snapshot() == Sell(userId, old(Snapshot()), symbol, quantity, price, quote).ledger
      ensures result == Sell(userId, old(Snapshot()), symbol, quantity, price, quote).result
    {
      ghost var s := Snapshot();
      var located := LocateSale(symbol, quantity, price, quote);
      if located.Failure? {
        return Failure(located.error);
      }
      var o := located.value.order;
      var i := located.value.index;
      var receipt := SettleSale(s, o, i, quote);
      result := Success(receipt);
      SellAccepted(userId, s, symbol, quantity, price, quote, i);
      SellKeepsWf(userId, s, symbol, quantity, price, quote);
    }

    /**
     * The checks `sellStock` makes before it writes anything: a valid request, an
     * existing portfolio, a holding of the symbol and enough shares in it.
     */
    method LocateSale(symbol: JsValue, quantity: JsValue, price: JsValue, quote: real) returns (r: Result<Sale, Failure>)
      ensures r.Failure? ==> Sell(userId, Snapshot(), symbol, quantity, price, quote) == Step(Snapshot(), Failure(r.error))
      ensures r.Success? ==>
        && ParseOrder(symbol, quantity, price) == Success(r.value.order)
        && portfolio != null
        && r.value.index < |portfolio.holdings|
        && r.value.index == IndexOf(portfolio.holdings, Normalize(r.value.order.symbol))
        && portfolio.holdings[r.value.index].quantity >= r.value.order.quantity
    {
      var errors := ValidateStockInput(symbol, quantity, price);
      if errors != [] {
        return Failure(InvalidInput(errors));
      }
      var o := ParseOrder(symbol, quantity, price).value;
      SellIsSellOrder(userId, Snapshot(), symbol, quantity, price, quote);
      if portfolio == null {
        return Failure(PortfolioNotFound);
      }
      var i := IndexOf(portfolio.holdings, Normalize(o.symbol));
      if i == -1 {
        return Failure(HoldingNotFound);
      }
      var holding := portfolio.holdings[i];
      if holding.quantity < o.quantity {
        return Failure(InsufficientQuantity(holding.quantity, o.quantity));
      }
      r := Success(Sale(o, i));
    }

    /** The writes of an accepted sale: credit the proceeds, record the trade, release the shares, recompute the totals. */
    method SettleSale(ghost s: Ledger, o: Order, i: nat, quote: real) returns (receipt: Receipt)
      requires s == Snapshot() && portfolio != null && ValidOrder(o)
      requires i < |portfolio.holdings| && portfolio.holdings[i].quantity >= o.quantity
      modifies user, transactions, portfolio
      ensures var holdings := SellHoldings(Holdings(s), i, o, quote);
              Snapshot() == Ledger(s.balance + TradeValue(o), Some(Book(holdings, CalculatePortfolioTotals(holdings))),
                                   s.log + [NewTransaction(userId, SELL, o.symbol, o.quantity, o.price, TradeValue(o))])
      ensures receipt == Receipt(SELL, ToUpper(o.symbol), o.quantity, o.price, TradeValue(o), Round2(user.balance))
    {
      var upperSymbol := ToUpper(o.symbol);
      var saleValue := TradeValue(o);
      user.balance := user.balance + saleValue;
      UpperCasedTransaction(userId, SELL, o.symbol, o.quantity, o.price, saleValue);
      var _ := transactions.AddTransaction(userId, SELL, upperSymbol, o.quantity, o.price, saleValue);
      portfolio.ReleaseSell(i, o, quote);
      portfolio.UpdateTotals();
      receipt := Receipt(SELL, upperSymbol, o.quantity, o.price, saleValue, Round2(user.balance));
    }

    /** `addMoney`. */
    method AddMoney(amount: real) returns (result: Result<real, Failure>)
      requires Valid()
      modifies user
      ensures Valid()
      ensures Snapshot() == Deposit(old(Snapshot()), amount).ledger
      ensures result == Deposit(old(Snapshot()), amount).result
    {
      CashKeepsWf(userId, Snapshot(), amount);
      if amount <= 0.0 {
        return Failure(InvalidAmount);
      }
      user.balance := user.balance + amount;
      result := Success(user.balance);
    }

    /** `withdrawMoney`. */
    method WithdrawMoney(amount: real) returns (result: Result<real, Failure>)
      requires Valid()
      modifies user
      ensures Valid()
      ensures Snapshot() == Withdraw(old(Snapshot()), amount).ledger
      ensures result == Withdraw(old(Snapshot()), amount).result
    {
      CashKeepsWf(userId, Snapshot(), amount);
      if amount <= 0.0 {
        return Failure(InvalidAmount);
      }
      if user.balance < amount {
        return Failure(InsufficientFunds(user.balance, amount));
      }
      user.balance := user.balance - amount;
      result := Success(user.balance);
    }

    /** `getPortfolio`, with `oracle` giving the price of each held symbol: returns the refreshed holdings. */
    method GetPortfolio(oracle: string -> real) returns (holdings: seq<Holding>)
      requires Valid()
      modifies this, portfolio
      ensures Valid() && portfolio != null
      ensures Snapshot() == Refresh(old(Snapshot()), oracle)
      ensures holdings == portfolio.holdings
      ensures old(portfolio) != null ==> portfolio == old(portfolio)
    {
      RefreshKeepsWf(userId, Snapshot(), oracle);
      if portfolio == null {
        portfolio := new Portfolio(userId);
      }
      holdings := RevalueAll(portfolio.holdings, oracle);
      portfolio.holdings := holdings;
      portfolio.UpdateTotals();
    }
  }
}
