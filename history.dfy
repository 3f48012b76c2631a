/**
 * `getTransactionHistory`: the user's transactions, optionally narrowed to one type
 * and one symbol, newest first, cut into pages, with the pagination fields the
 * reply carries. The query values are taken as whole numbers; the database's
 * `find`, `sort`, `skip`, `limit` and `countDocuments` are written out as functions
 * over the transaction log, which is kept in the order the records were added.
 */
module History {
  import opened Wrappers
  import opened Text
  import opened Records

  /** The query string: each value may be absent. */
  datatype HistoryQuery = HistoryQuery(page: Option<int>, limit: Option<int>, kind: Option<string>, symbol: Option<string>)

  /** A filter value takes part only when it is given and not empty (an empty string is falsy). */
  predicate Given(v: Option<string>) {
    v.Some? && v.value != []
  }

  /**
   * The filter `{ userId, type?, symbol? }`. The handler upper-cases the type and the
   * symbol; the database layer then casts the symbol through the schema's
   * `uppercase` and `trim` setters, so the symbol is compared in its stored form.
   * The type has no setter and is compared upper-cased only.
   */
  predicate Matches(userId: UserId, kind: Option<string>, symbol: Option<string>, t: Transaction) {
    && t.userId == userId
    && (Given(kind) ==> TxTypeName(t.kind) == ToUpper(kind.value))
    && (Given(symbol) ==> t.symbol == Normalize(symbol.value))
  }

  /**
   * `Transaction.find(filter)`: the matching records, in log order, each as often as
   * it occurs in the log (`countDocuments` counts them all).
   */
  function Select(log: seq<Transaction>, userId: UserId, kind: Option<string>, symbol: Option<string>): (r: seq<Transaction>)
    ensures |r| <= |log|
    ensures forall t :: t in r <==> t in log && Matches(userId, kind, symbol, t)
  {
    if log == [] then []
    else
      var rest := Select(log[..|log| - 1], userId, kind, symbol);
      var last := log[|log| - 1];
      assert log == log[..|log| - 1] + [last];
      if Matches(userId, kind, symbol, last) then rest + [last] else rest
  }

  /** Each matching record is selected as often as it occurs in the log, and no other record is. */
  lemma {:induction false} SelectMultiplicity(log: seq<Transaction>, userId: UserId, kind: Option<string>, symbol: Option<string>)
    ensures forall t :: multiset(Select(log, userId, kind, symbol))[t] == if Matches(userId, kind, symbol, t) then multiset(log)[t] else 0
  {
    if log != [] {
      var init, last := log[..|log| - 1], log[|log| - 1];
      SelectMultiplicity(init, userId, kind, symbol);
      assert log == init + [last];
      assert multiset(log) == multiset(init) + multiset{last};
    }
  }

  /** `.sort({ timestamp: -1 })`: records are stamped as they are added, so newest first is the log reversed. */
  function NewestFirst(xs: seq<Transaction>): (r: seq<Transaction>)
    ensures |r| == |xs|
    ensures forall i :: 0 <= i < |xs| ==> r[i] == xs[|xs| - 1 - i]
    ensures forall t :: t in r <==> t in xs
  {
    if xs == [] then []
    else
      assert xs == xs[..|xs| - 1] + [xs[|xs| - 1]];
      [xs[|xs| - 1]] + NewestFirst(xs[..|xs| - 1])
  }

  /**
   * `.skip(skip).limit(limit)`: the database applies the skip first; a limit of 0
   * means no limit and a negative limit is taken by its magnitude.
   */
  function Window(xs: seq<Transaction>, skip: nat, limit: int): (r: seq<Transaction>)
    ensures limit == 0 ==> r == if skip <= |xs| then xs[skip..] else []
    ensures limit != 0 ==> |r| == Clamp(|xs| - skip, if limit < 0 then -limit else limit)
    ensures forall i :: 0 <= i < |r| ==> skip + i < |xs| && r[i] == xs[skip + i]
    ensures forall t :: t in r ==> t in xs
  {
    var rest := if skip <= |xs| then xs[skip..] else [];
    var size := if limit < 0 then -limit else limit;
    if limit == 0 || |rest| <= size then rest else rest[..size]
  }

  /** `min(max(n, 0), cap)` for a non-negative cap. */
  function Clamp(n: int, cap: nat): nat {
    if n <= 0 then 0 else if n <= cap then n else cap
  }

  /** `Math.ceil(n / d)` for a non-zero divisor of either sign. */
  function CeilDiv(n: nat, d: int): (r: int)
    requires d != 0
    ensures d > 0 ==> (r - 1) * d < n <= r * d
    ensures d < 0 ==> r * d <= n < (r - 1) * d
  {
    if d > 0 then (n + d - 1) / d else -(n / -d)
  }

  datatype Pagination = Pagination(currentPage: int, totalPages: Option<int>, totalTransactions: nat, hasNext: bool, hasPrev: bool)

  /**
   * The `pagination` object. `Math.ceil(total / 0)` is `Infinity` or `NaN`, which the
   * JSON reply writes as `null`: `totalPages` is `None` then.
   */
  function Paginate(page: int, limit: int, total: nat): (p: Pagination)
    ensures p.currentPage == page && p.totalTransactions == total
    ensures p.totalPages.None? <==> limit == 0
    ensures p.hasNext <==> page * limit < total
    ensures p.hasPrev <==> page > 1
  {
    Pagination(page, if limit == 0 then None else Some(CeilDiv(total, limit)), total, page * limit < total, page > 1)
  }

  datatype HistoryPage = HistoryPage(transactions: seq<Transaction>, pagination: Pagination)

  /** The database refuses a negative skip, which a page below 1 produces; the handler then answers with a server error. */
  datatype HistoryError = NegativeSkip(skip: int)

  /** The page number and page size, with the defaults of 1 and 20 for absent values. */
  function PageOf(q: HistoryQuery): int { if q.page.Some? then q.page.value else 1 }

  function LimitOf(q: HistoryQuery): int { if q.limit.Some? then q.limit.value else 20 }

  /** `getTransactionHistory` for the signed-in `userId` over the transaction log. */
  function TransactionHistory(log: seq<Transaction>, userId: UserId, q: HistoryQuery): (r: Result<HistoryPage, HistoryError>)
    ensures var skip := (PageOf(q) - 1) * LimitOf(q);
            r.Failure? <==> skip < 0
    ensures r.Success? ==> forall t :: t in r.value.transactions ==> t in log && Matches(userId, q.kind, q.symbol, t)
    ensures r.Success? ==> r.value.pagination == Paginate(PageOf(q), LimitOf(q), |Select(log, userId, q.kind, q.symbol)|)
  {
    var page, limit := PageOf(q), LimitOf(q);
    var skip := (page - 1) * limit;
    if skip < 0 then Failure(NegativeSkip(skip))
    else
      var matching := Select(log, userId, q.kind, q.symbol);
      var shown := Window(NewestFirst(matching), skip, limit);
      Success(HistoryPage(shown, Paginate(page, limit, |matching|)))
  }

  /** With a positive page size, `hasNext` says exactly that the current page is not the last. */
  lemma HasNextBeforeLastPage(page: int, limit: int, total: nat)
    requires limit > 0
    ensures var p := Paginate(page, limit, total);
            p.totalPages.Some? && (p.hasNext <==> page < p.totalPages.value)
  {
    var pages := CeilDiv(total, limit);
    if page < pages {
      MultiplyMonotone(page, pages - 1, limit);
    } else {
      MultiplyMonotone(pages, page, limit);
    }
  }

  lemma MultiplyMonotone(a: int, b: int, c: int)
    requires a <= b && c >= 0
    ensures a * c <= b * c
  {
    assert b * c - a * c == (b - a) * c;
  }

  /**
   * With a positive page number and page size, `hasNext` says exactly that records
   * remain beyond the ones shown, and `hasPrev` that some were skipped.
   */
  lemma HasNextIffMoreRecords(log: seq<Transaction>, userId: UserId, q: HistoryQuery)
    requires PageOf(q) >= 1 && LimitOf(q) >= 1
    ensures var r := TransactionHistory(log, userId, q);
            var skip := (PageOf(q) - 1) * LimitOf(q);
            && r.Success?
            && (r.value.pagination.hasNext <==> skip + |r.value.transactions| < r.value.pagination.totalTransactions)
            && (r.value.pagination.hasPrev <==> skip > 0)
  {
    var page, limit := PageOf(q), LimitOf(q);
    MultiplyMonotone(0, page - 1, limit);
    assert page * limit == (page - 1) * limit + limit;
    if page > 1 {
      MultiplyMonotone(1, page - 1, limit);
    }
  }

  /**
   * A page holds as many of the remaining matches as the page size allows, and the
   * pages cover the matching records in turn.
   */
  lemma PageContents(log: seq<Transaction>, userId: UserId, q: HistoryQuery)
    requires PageOf(q) >= 1 && LimitOf(q) >= 1
    ensures var r := TransactionHistory(log, userId, q);
            var newest := NewestFirst(Select(log, userId, q.kind, q.symbol));
            var skip := (PageOf(q) - 1) * LimitOf(q);
            && r.Success?
            && |r.value.transactions| <= LimitOf(q)
            && |r.value.transactions| == Clamp(|newest| - skip, LimitOf(q))
            && forall i :: 0 <= i < |r.value.transactions| ==> r.value.transactions[i] == newest[skip + i]
  {
    var page, limit := PageOf(q), LimitOf(q);
    var skip := (page - 1) * limit;
    MultiplyMonotone(0, page - 1, limit);
    var matching := Select(log, userId, q.kind, q.symbol);
    var shown := Window(NewestFirst(matching), skip, limit);
    assert TransactionHistory(log, userId, q) == Success(HistoryPage(shown, Paginate(page, limit, |matching|)));
  }

  /** Without a type filter the count is the BUY count plus the SELL count. */
  lemma {:induction false} CountSplitsByType(log: seq<Transaction>, userId: UserId, symbol: Option<string>)
    ensures |Select(log, userId, None, symbol)|
         == |Select(log, userId, Some("BUY"), symbol)| + |Select(log, userId, Some("SELL"), symbol)|
  {
    if log != [] {
      var init, last := log[..|log| - 1], log[|log| - 1];
      CountSplitsByType(init, userId, symbol);
      TypeNamesAreUpper();
      SelectLast(log, userId, None, symbol);
      SelectLast(log, userId, Some("BUY"), symbol);
      SelectLast(log, userId, Some("SELL"), symbol);
      var all := Matches(userId, None, symbol, last);
      if last.kind == BUY {
        assert Matches(userId, Some("BUY"), symbol, last) == all;
        assert !Matches(userId, Some("SELL"), symbol, last);
      } else {
        assert !Matches(userId, Some("BUY"), symbol, last);
        assert Matches(userId, Some("SELL"), symbol, last) == all;
      }
    }
  }

  /** The last record of the log adds one to the count exactly when it matches. */
  lemma SelectLast(log: seq<Transaction>, userId: UserId, kind: Option<string>, symbol: Option<string>)
    requires log != []
    ensures |Select(log, userId, kind, symbol)|
         == |Select(log[..|log| - 1], userId, kind, symbol)| + if Matches(userId, kind, symbol, log[|log| - 1]) then 1 else 0
  {
  }

  /** The two type names are already upper-case, so a filter naming either selects exactly that type. */
  lemma TypeNamesAreUpper()
    ensures ToUpper("BUY") == "BUY" && ToUpper("SELL") == "SELL"
  {
    assert ToUpper("BUY") == ['B', 'U', 'Y'];
    assert ToUpper("SELL") == ['S', 'E', 'L', 'L'];
  }
}
