/**
 * The stored records: a holding inside a portfolio, a portfolio, and a transaction,
 * with the constraints their schemas declare (required fields, `min: 0`, the
 * upper-case and trim setters on symbols, the BUY/SELL enum, defaults of 0, and the
 * unique index on a portfolio's owner).
 */
module Records {
  import opened Text
  import opened Wrappers

  /** A user's identity (a database object id); being a value, it is always present. */
  type UserId = nat

  datatype Holding = Holding(
    symbol: string,
    quantity: real,
    averageBuyPrice: real,
    totalInvested: real,
    currentValue: real,
    profitLoss: real,
    profitLossPercentage: real)

  /** A symbol as the schema accepts it: required (so not empty) and already upper-case and trimmed. */
  predicate StoredSymbol(s: string) {
    s != [] && IsNormal(s)
  }

  /** What saving a holding checks: symbol as above and `min: 0` on quantity, average price and amount invested. */
  predicate SchemaHolding(h: Holding) {
    && StoredSymbol(h.symbol)
    && h.quantity >= 0.0
    && h.averageBuyPrice >= 0.0
    && h.totalInvested >= 0.0
  }

  /**
   * Casting a plain object into a holding sub-document: the setters normalise the
   * symbol and the two derived fields not given take their default of 0. The result
   * passes the schema exactly when the symbol is not blank and the numbers meet
   * their minimums.
   */
  function CastHolding(symbol: string, quantity: real, averageBuyPrice: real, totalInvested: real, currentValue: real): (h: Holding)
    ensures h.symbol == Normalize(symbol) && IsNormal(h.symbol)
    ensures h.quantity == quantity && h.averageBuyPrice == averageBuyPrice
    ensures h.totalInvested == totalInvested && h.currentValue == currentValue
    ensures h.profitLoss == 0.0 && h.profitLossPercentage == 0.0
    ensures SchemaHolding(h) <==> Trim(symbol) != [] && quantity >= 0.0 && averageBuyPrice >= 0.0 && totalInvested >= 0.0
  {
    NormalizeIsNormal(symbol);
    NormalizeNonEmpty(symbol);
    Holding(Normalize(symbol), quantity, averageBuyPrice, totalInvested, currentValue, 0.0, 0.0)
  }

  datatype TxType = BUY | SELL

  /** The name the enum stores. */
  function TxTypeName(t: TxType): string {
    match t
    case BUY => "BUY"
    case SELL => "SELL"
  }

  /** A transaction type name is one of exactly two strings, and each names one type. */
  lemma TxTypeNameInjective(a: TxType, b: TxType)
    ensures TxTypeName(a) == TxTypeName(b) <==> a == b
    ensures TxTypeName(a) in {"BUY", "SELL"}
  {
  }

  datatype Transaction = Transaction(
    userId: UserId,
    kind: TxType,
    symbol: string,
    quantity: real,
    price: real,
    totalAmount: real)

  /** What saving a transaction checks (the user id and the enum are guaranteed by their types). */
  predicate SchemaTransaction(t: Transaction) {
    && StoredSymbol(t.symbol)
    && t.quantity >= 0.0
    && t.price >= 0.0
    && t.totalAmount >= 0.0
  }

  /**
   * The record `addTransaction` builds: it upper-cases the symbol and the schema
   * setters then trim it. Saving it succeeds exactly when the symbol is not blank
   * and the three amounts are not negative.
   */
  function NewTransaction(userId: UserId, kind: TxType, symbol: string, quantity: real, price: real, totalAmount: real): (t: Transaction)
    ensures t.userId == userId && t.kind == kind
    ensures t.symbol == Normalize(symbol)
    ensures t.quantity == quantity && t.price == price && t.totalAmount == totalAmount
    ensures SchemaTransaction(t) <==> Trim(symbol) != [] && quantity >= 0.0 && price >= 0.0 && totalAmount >= 0.0
  {
    NormalizeIsNormal(symbol);
    NormalizeNonEmpty(symbol);
    ToUpperIdempotent(symbol);
    Transaction(userId, kind, Normalize(ToUpper(symbol)), quantity, price, totalAmount)
  }

  /** Upper-casing the symbol before building the record changes nothing: the record upper-cases it anyway. */
  lemma UpperCasedTransaction(userId: UserId, kind: TxType, symbol: string, quantity: real, price: real, totalAmount: real)
    ensures NewTransaction(userId, kind, ToUpper(symbol), quantity, price, totalAmount)
         == NewTransaction(userId, kind, symbol, quantity, price, totalAmount)
  {
    ToUpperIdempotent(symbol);
  }

  datatype PortfolioRecord = PortfolioRecord(
    userId: UserId,
    holdings: seq<Holding>,
    totalValue: real,
    totalInvested: real,
    totalProfitLoss: real,
    profitLossPercentage: real)

  /** A new portfolio: no holdings and every aggregate at its default of 0. */
  function EmptyPortfolio(userId: UserId): (p: PortfolioRecord)
    ensures p.userId == userId && p.holdings == []
    ensures p.totalValue == 0.0 && p.totalInvested == 0.0
    ensures p.totalProfitLoss == 0.0 && p.profitLossPercentage == 0.0
  {
    PortfolioRecord(userId, [], 0.0, 0.0, 0.0, 0.0)
  }

  /** The unique index on `userId`: no two stored portfolios share an owner. */
  predicate OnePerUser(store: seq<PortfolioRecord>) {
    forall i, j :: 0 <= i < j < |store| ==> store[i].userId != store[j].userId
  }

  predicate HasPortfolio(store: seq<PortfolioRecord>, userId: UserId) {
    exists i :: 0 <= i < |store| && store[i].userId == userId
  }

  datatype StoreError = DuplicateKey(userId: UserId)

  /**
   * Inserting a portfolio document: the unique index refuses a second portfolio
   * for an owner that already has one, and otherwise the document is appended.
   */
  function InsertPortfolio(store: seq<PortfolioRecord>, p: PortfolioRecord): (r: Result<seq<PortfolioRecord>, StoreError>)
    ensures r.Failure? <==> HasPortfolio(store, p.userId)
    ensures r.Success? ==> r.value == store + [p]
    ensures r.Success? && OnePerUser(store) ==> OnePerUser(r.value)
  {
    if exists i :: 0 <= i < |store| && store[i].userId == p.userId then Failure(DuplicateKey(p.userId))
    else Success(store + [p])
  }

  /** `findOne({ userId })`: the owner's portfolio, if there is one. */
  function FindPortfolio(store: seq<PortfolioRecord>, userId: UserId): (r: Option<PortfolioRecord>)
    requires OnePerUser(store)
    ensures r.None? <==> !HasPortfolio(store, userId)
    ensures r.Some? ==> r.value in store && r.value.userId == userId
    ensures forall p :: p in store && p.userId == userId ==> r == Some(p)
  {
    if store == [] then None
    else if store[0].userId == userId then
      assert forall j :: 0 < j < |store| ==> store[j].userId != userId by {
        forall j | 0 < j < |store| ensures store[j].userId != userId { assert store[0].userId != store[j].userId; }
      }
      Some(store[0])
    else
      assert OnePerUser(store[1..]) by {
        forall i, j | 0 <= i < j < |store| - 1 ensures store[1..][i].userId != store[1..][j].userId {
          assert store[1..][i] == store[i + 1] && store[1..][j] == store[j + 1];
        }
      }
      var r := FindPortfolio(store[1..], userId);
      assert HasPortfolio(store, userId) ==> HasPortfolio(store[1..], userId) by {
        if HasPortfolio(store, userId) {
          var i :| 0 <= i < |store| && store[i].userId == userId;
          assert store[1..][i - 1] == store[i];
        }
      }
      assert HasPortfolio(store[1..], userId) ==> HasPortfolio(store, userId) by {
        if HasPortfolio(store[1..], userId) {
          var i :| 0 <= i < |store| - 1 && store[1..][i].userId == userId;
          assert store[i + 1] == store[1..][i];
        }
      }
      r
  }
}
