/**
 * The ledger accounting behind `buyStock`, `sellStock`, `addMoney`, `withdrawMoney`
 * and `getPortfolio`, stated on values: a user's balance, the user's portfolio (if
 * one exists) and the user's transaction log. Each operation is a step from one
 * ledger to the next together with what the caller is told. Every rejection
 * happens before anything is written, so a rejected step returns the ledger it
 * was given (the database session is aborted with nothing to undo). The buy and
 * sell steps look a holding up by the symbol's stored form (trimmed and
 * upper-cased); the source's lookup by the upper-cased symbol alone, which misses
 * a symbol sent with surrounding white space, is modelled in `Findings`.
 */
module Ledger {
  import opened Wrappers
  import opened Money
  import opened Text
  import opened Records
  import opened Validation
  import opened Valuation

  // ---------------------------------------------------------------------------
  // Holdings
  // ---------------------------------------------------------------------------

  /**
   * A holding as the ledger keeps it: it passes the schema, its quantity is positive
   * (a position that reaches zero is removed) and its amount invested is a whole
   * number of cents (it is always stored rounded).
   */
  predicate LiveHolding(h: Holding) {
    SchemaHolding(h) && h.quantity > 0.0 && IsCents(h.totalInvested)
  }

  predicate AllLive(hs: seq<Holding>) {
    forall j :: 0 <= j < |hs| ==> LiveHolding(hs[j])
  }

  /** No symbol is held twice. */
  predicate UniqueSymbols(hs: seq<Holding>) {
    forall i, j :: 0 <= i < j < |hs| ==> hs[i].symbol != hs[j].symbol
  }

  predicate Holds(hs: seq<Holding>, symbol: string) {
    exists j :: 0 <= j < |hs| && hs[j].symbol == symbol
  }

  /** `findIndex(h => h.symbol === symbol)`: the first position holding `symbol`, or -1. */
  function IndexOf(hs: seq<Holding>, symbol: string): (i: int)
    ensures -1 <= i < |hs|
    ensures i == -1 <==> !Holds(hs, symbol)
    ensures i >= 0 ==> hs[i].symbol == symbol && forall j :: 0 <= j < i ==> hs[j].symbol != symbol
  {
    if hs == [] then -1
    else if hs[0].symbol == symbol then 0
    else
      var k := IndexOf(hs[1..], symbol);
      assert Holds(hs, symbol) ==> Holds(hs[1..], symbol) by {
        if Holds(hs, symbol) {
          var j :| 0 <= j < |hs| && hs[j].symbol == symbol;
          assert hs[1..][j - 1] == hs[j];
        }
      }
      if k == -1 then -1 else k + 1
  }

  /** In a portfolio whose symbols are unique, a held symbol sits at exactly one position. */
  lemma IndexOfUnique(hs: seq<Holding>, symbol: string, j: nat)
    requires UniqueSymbols(hs)
    requires j < |hs| && hs[j].symbol == symbol
    ensures IndexOf(hs, symbol) == j
  {
  }

  /**
   * An order that passed validation: a non-blank symbol as the client sent it, and a
   * positive quantity and price.
   */
  datatype Order = Order(symbol: string, quantity: real, price: real)

  predicate ValidOrder(o: Order) {
    Trim(o.symbol) != [] && o.quantity > 0.0 && o.price > 0.0
  }

  /** `quantity * price`: what a trade costs or yields. */
  function TradeValue(o: Order): real {
    o.quantity * o.price
  }

  /**
   * A buy merged into the holding already kept for its symbol: the quantities add up,
   * the cost of the trade is added to the amount invested, and the average price is
   * the new amount invested over the new quantity (both rounded to cents); the
   * current value uses the oracle's quote.
   */
  function MergeBuy(h: Holding, o: Order, quote: real): (r: Holding)
    requires h.quantity + o.quantity != 0.0
  {
    var quantity := h.quantity + o.quantity;
    var invested := h.totalInvested + TradeValue(o);
    h.(quantity := quantity,
       averageBuyPrice := Round2(invested / quantity),
       totalInvested := Round2(invested),
       currentValue := quantity * quote)
  }

  /** A buy of a symbol not yet held: a new holding at the trade's price and cost. */
  function OpenHolding(symbol: string, o: Order, quote: real): (r: Holding) {
    CastHolding(symbol, o.quantity, o.price, Round2(TradeValue(o)), o.quantity * quote)
  }

  /**
   * The holdings after a buy of `o` under the lookup key `symbol`: the holding kept
   * for the key is merged with the trade in place, or, when there is none, a new
   * holding is appended. Nothing else changes.
   */
  function BuyHoldings(hs: seq<Holding>, symbol: string, o: Order, quote: real): (r: seq<Holding>)
    requires forall j :: 0 <= j < |hs| ==> hs[j].quantity >= 0.0
    requires o.quantity > 0.0
    ensures Holds(hs, symbol) ==> |r| == |hs| && r == hs[IndexOf(hs, symbol) := MergeBuy(hs[IndexOf(hs, symbol)], o, quote)]
    ensures !Holds(hs, symbol) ==> r == hs + [OpenHolding(symbol, o, quote)]
  {
    var i := IndexOf(hs, symbol);
    if i > -1 then hs[i := MergeBuy(hs[i], o, quote)] else hs + [OpenHolding(symbol, o, quote)]
  }

  /**
   * A partial sell of `o` from holding `h`: the quantity drops by the amount sold and
   * the amount invested is scaled to what remains (amount invested per unit times
   * units left, rounded to cents), while the average price is kept; the current
   * value uses the oracle's quote.
   */
  function ReduceHolding(h: Holding, o: Order, quote: real): (r: Holding)
    requires h.quantity != 0.0
  {
    var remaining := h.quantity - o.quantity;
    h.(quantity := remaining,
       totalInvested := Round2((h.totalInvested / h.quantity) * remaining),
       currentValue := remaining * quote)
  }

  /**
   * A sell of `o` from the holding at position `i`, whose quantity covers it. When
   * nothing remains the holding is removed (`splice(i, 1)`); otherwise it is reduced
   * in place. Nothing else changes.
   */
  function SellHoldings(hs: seq<Holding>, i: nat, o: Order, quote: real): (r: seq<Holding>)
    requires i < |hs| && o.quantity > 0.0 && hs[i].quantity >= o.quantity
  {
    if hs[i].quantity - o.quantity == 0.0 then hs[..i] + hs[i + 1..]
    else hs[i := ReduceHolding(hs[i], o, quote)]
  }

  // ---------------------------------------------------------------------------
  // The ledger and its steps
  // ---------------------------------------------------------------------------

  /** A stored portfolio's content: its holdings and the cached aggregates. */
  datatype Book = Book(holdings: seq<Holding>, totals: PortfolioTotals)

  /** What one user's operations read and write. */
  datatype Ledger = Ledger(balance: real, book: Option<Book>, log: seq<Transaction>)

  /** The success reply of a trade: what was traded and the new balance, rounded to cents. */
  datatype Receipt = Receipt(kind: TxType, symbol: string, quantity: real, price: real, amount: real, newBalance: real)

  datatype Failure =
    | InvalidInput(errors: seq<string>)
    | InsufficientBalance(required: real, available: real)
    | PortfolioNotFound
    | HoldingNotFound
    | InsufficientQuantity(available: real, requested: real)
    | InvalidAmount
    | InsufficientFunds(balance: real, requested: real)

  /** The next ledger and the reply. */
  datatype Step<R> = Step(ledger: Ledger, result: Result<R, Failure>)

  /** The holdings of the ledger's portfolio; none when there is no portfolio yet. */
  function Holdings(s: Ledger): seq<Holding> {
    if s.book.Some? then s.book.value.holdings else []
  }

  /** The user's portfolio content is consistent: live, uniquely keyed holdings and totals that match them. */
  predicate BookOk(b: Book) {
    && AllLive(b.holdings)
    && UniqueSymbols(b.holdings)
    && b.totals == CalculatePortfolioTotals(b.holdings)
  }

  /** A recorded trade of user `userId`: it passes the schema, and its amount is quantity times price. */
  predicate Recorded(userId: UserId, t: Transaction) {
    && SchemaTransaction(t)
    && t.userId == userId
    && t.quantity > 0.0 && t.price > 0.0
    && t.totalAmount == t.quantity * t.price
  }

  /** The ledger invariant: the balance is never negative, the portfolio is consistent, the log holds only recorded trades. */
  predicate Wf(userId: UserId, s: Ledger) {
    && s.balance >= 0.0
    && (s.book.Some? ==> BookOk(s.book.value))
    && (forall k :: 0 <= k < |s.log| ==> Recorded(userId, s.log[k]))
  }

  /** The ledger of a new user: the schema's default balance of 0, no portfolio, no trades. */
  function NewLedger(): (s: Ledger)
    ensures forall userId :: Wf(userId, s)
  {
    Ledger(0.0, None, [])
  }

  /** Validation of a trade request: the order it carries, or the list of what is wrong with it. */
  function ParseOrder(symbol: JsValue, quantity: JsValue, price: JsValue): (r: Result<Order, Failure>)
    ensures r.Failure? <==> ValidateStockInput(symbol, quantity, price) != []
    ensures r.Failure? ==> r.error == InvalidInput(ValidateStockInput(symbol, quantity, price))
    ensures r.Success? ==> ValidOrder(r.value)
    ensures r.Success? ==> symbol == Str(r.value.symbol) && quantity == Num(r.value.quantity) && price == Num(r.value.price)
  {
    var errors := ValidateStockInput(symbol, quantity, price);
    if errors != [] then Failure(InvalidInput(errors))
    else
      assert GoodSymbol(symbol) && Positive(quantity) && Positive(price);
      assert Trim(symbol.s) != [] by {
        var i :| 0 <= i < |symbol.s| && !IsSpace(symbol.s[i]);
      }
      Success(Order(symbol.s, quantity.n, price.n))
  }

  /**
   * A validated buy. It is refused when the balance does not cover the cost;
   * otherwise the balance is debited by exactly the cost, the holdings absorb the
   * trade under the symbol's stored form, one BUY transaction for the cost is
   * appended, and the cached totals are recomputed.
   */
  function BuyOrder(userId: UserId, s: Ledger, o: Order, quote: real): (r: Step<Receipt>)
    requires ValidOrder(o)
    requires forall j :: 0 <= j < |Holdings(s)| ==> Holdings(s)[j].quantity >= 0.0
    ensures r.result.Failure? ==> r.ledger == s && r.result.error == InsufficientBalance(TradeValue(o), s.balance)
    ensures r.result.Success? <==> s.balance >= TradeValue(o)
    ensures r.result.Success? ==>
      && r.ledger.balance == s.balance - TradeValue(o)
      && r.ledger.log == s.log + [NewTransaction(userId, BUY, o.symbol, o.quantity, o.price, TradeValue(o))]
      && r.ledger.book.Some?
      && r.ledger.book.value.holdings == BuyHoldings(Holdings(s), Normalize(o.symbol), o, quote)
      && r.ledger.book.value.totals == CalculatePortfolioTotals(r.ledger.book.value.holdings)
      && r.result.value == Receipt(BUY, ToUpper(o.symbol), o.quantity, o.price, TradeValue(o), Round2(r.ledger.balance))
  {
    var cost := TradeValue(o);
    if s.balance < cost then Step(s, Failure(InsufficientBalance(cost, s.balance)))
    else
      var holdings := BuyHoldings(Holdings(s), Normalize(o.symbol), o, quote);
      var balance := s.balance - cost;
      var entry := NewTransaction(userId, BUY, o.symbol, o.quantity, o.price, cost);
      Step(Ledger(balance, Some(Book(holdings, CalculatePortfolioTotals(holdings))), s.log + [entry]),
           Success(Receipt(BUY, ToUpper(o.symbol), o.quantity, o.price, cost, Round2(balance))))
  }

  /** `buyStock`: validation, then the buy. A rejected request leaves the ledger as it was. */
  function Buy(userId: UserId, s: Ledger, symbol: JsValue, quantity: JsValue, price: JsValue, quote: real): (r: Step<Receipt>)
    requires forall j :: 0 <= j < |Holdings(s)| ==> Holdings(s)[j].quantity >= 0.0
    ensures r.result.Failure? ==> r.ledger == s
    ensures ValidateStockInput(symbol, quantity, price) != [] ==> r.result == Failure(InvalidInput(ValidateStockInput(symbol, quantity, price)))
    ensures ParseOrder(symbol, quantity, price).Success? ==> r == BuyOrder(userId, s, ParseOrder(symbol, quantity, price).value, quote)
  {
    match ParseOrder(symbol, quantity, price)
    case Failure(e) => Step(s, Failure(e))
    case Success(o) => BuyOrder(userId, s, o, quote)
  }

  /**
   * A validated sell. It is refused when the user has no portfolio, when the symbol
   * is not held, or when the holding is smaller than the order; otherwise the
   * balance is credited by exactly the sale value, the holding is reduced or
   * removed, one SELL transaction for the sale value is appended, and the cached
   * totals are recomputed.
   */
  function SellOrder(userId: UserId, s: Ledger, o: Order, quote: real): (r: Step<Receipt>)
    requires ValidOrder(o)
    ensures r.result.Failure? ==> r.ledger == s
    ensures r.result.Success? ==>
      && s.book.Some?
      && var i := IndexOf(Holdings(s), Normalize(o.symbol));
      && 0 <= i && Holdings(s)[i].quantity >= o.quantity
      && r.ledger.balance == s.balance + TradeValue(o)
      && r.ledger.log == s.log + [NewTransaction(userId, SELL, o.symbol, o.quantity, o.price, TradeValue(o))]
      && r.ledger.book.Some?
      && r.ledger.book.value.holdings == SellHoldings(Holdings(s), i, o, quote)
      && r.ledger.book.value.totals == CalculatePortfolioTotals(r.ledger.book.value.holdings)
      && r.result.value == Receipt(SELL, ToUpper(o.symbol), o.quantity, o.price, TradeValue(o), Round2(r.ledger.balance))
  {
    if s.book.None? then Step(s, Failure(PortfolioNotFound))
    else
      var hs := s.book.value.holdings;
      var i := IndexOf(hs, Normalize(o.symbol));
      if i == -1 then Step(s, Failure(HoldingNotFound))
      else if hs[i].quantity < o.quantity then Step(s, Failure(InsufficientQuantity(hs[i].quantity, o.quantity)))
      else
        var sale := TradeValue(o);
        var balance := s.balance + sale;
        var holdings := SellHoldings(hs, i, o, quote);
        var entry := NewTransaction(userId, SELL, o.symbol, o.quantity, o.price, sale);
        Step(Ledger(balance, Some(Book(holdings, CalculatePortfolioTotals(holdings))), s.log + [entry]),
             Success(Receipt(SELL, ToUpper(o.symbol), o.quantity, o.price, sale, Round2(balance))))
  }

  /** `sellStock`: validation, then the sell. A rejected request leaves the ledger as it was. */
  function Sell(userId: UserId, s: Ledger, symbol: JsValue, quantity: JsValue, price: JsValue, quote: real): (r: Step<Receipt>)
    ensures r.result.Failure? ==> r.ledger == s
    ensures ValidateStockInput(symbol, quantity, price) != [] ==> r.result == Failure(InvalidInput(ValidateStockInput(symbol, quantity, price)))
    ensures ParseOrder(symbol, quantity, price).Success? ==> r == SellOrder(userId, s, ParseOrder(symbol, quantity, price).value, quote)
  {
    match ParseOrder(symbol, quantity, price)
    case Failure(e) => Step(s, Failure(e))
    case Success(o) => SellOrder(userId, s, o, quote)
  }

  /** `addMoney`: a non-positive amount is refused; otherwise the balance grows by exactly the amount. */
  function Deposit(s: Ledger, amount: real): (r: Step<real>)
    ensures r.result.Failure? ==> r.ledger == s && r.result.error == InvalidAmount
    ensures r.result.Success? <==> amount > 0.0
    ensures r.result.Success? ==> r.ledger == s.(balance := s.balance + amount) && r.result.value == s.balance + amount
  {
    if amount <= 0.0 then Step(s, Failure(InvalidAmount))
    else Step(s.(balance := s.balance + amount), Success(s.balance + amount))
  }

  /**
   * `withdrawMoney`: a non-positive amount, or one above the balance, is refused;
   * otherwise the balance shrinks by exactly the amount and so stays non-negative.
   */
  function Withdraw(s: Ledger, amount: real): (r: Step<real>)
    ensures r.result.Failure? ==> r.ledger == s
    ensures r.result == Failure(InvalidAmount) <==> amount <= 0.0
    ensures r.result == Failure(InsufficientFunds(s.balance, amount)) <==> amount > 0.0 && s.balance < amount
    ensures r.result.Success? <==> 0.0 < amount <= s.balance
    ensures r.result.Success? ==> r.ledger == s.(balance := s.balance - amount) && r.ledger.balance >= 0.0
  {
    if amount <= 0.0 then Step(s, Failure(InvalidAmount))
    else if s.balance < amount then Step(s, Failure(InsufficientFunds(s.balance, amount)))
    else Step(s.(balance := s.balance - amount), Success(s.balance - amount))
  }

  /**
   * `getPortfolio`: creates the portfolio if there is none (empty, totals 0), refreshes
   * every holding at the oracle's price, recomputes the totals and stores the
   * result. The balance and the log are untouched, and so are the ledger fields of
   * every holding.
   */
  function Refresh(s: Ledger, oracle: string -> real): (r: Ledger)
    ensures r.balance == s.balance && r.log == s.log && r.book.Some?
    ensures |Holdings(r)| == |Holdings(s)|
    ensures forall j :: 0 <= j < |Holdings(s)| ==>
      var (a, b) := (Holdings(s)[j], Holdings(r)[j]);
      a.symbol == b.symbol && a.quantity == b.quantity && a.averageBuyPrice == b.averageBuyPrice && a.totalInvested == b.totalInvested
    ensures Holdings(r) == RevalueAll(Holdings(s), oracle)
    ensures r.book.value.totals == CalculatePortfolioTotals(Holdings(r))
  {
    var holdings := RevalueAll(Holdings(s), oracle);
    Ledger(s.balance, Some(Book(holdings, CalculatePortfolioTotals(holdings))), s.log)
  }
}
