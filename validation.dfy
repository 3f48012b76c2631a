/**
 * `validateStockInput`: the checks a buy or sell request body passes before the
 * ledger is touched. A number here is a real; an infinite value, which the source
 * rejects through `Number.isFinite`, is not modelled.
 */
module Validation {
  import opened Text

  /** A value read from a JSON request body (arrays and objects are `Composite`). */
  datatype JsValue = Undefined | Null | Bool(b: bool) | Num(n: real) | Str(s: string) | Composite

  /** JavaScript falsiness (`!v`): JSON has no NaN, so these are all the falsy values. */
  predicate Falsy(v: JsValue) {
    match v
    case Undefined => true
    case Null => true
    case Bool(b) => !b
    case Num(n) => n == 0.0
    case Str(s) => s == []
    case Composite => false
  }

  const SymbolError := "Valid symbol is required"
  const QuantityError := "Valid positive quantity is required"
  const PriceError := "Valid positive price is required"

  /** `!symbol || typeof symbol !== 'string' || symbol.trim().length === 0` */
  predicate SymbolRejected(v: JsValue) {
    Falsy(v) || !v.Str? || |Trim(v.s)| == 0
  }

  /**
   * `!x || x <= 0 || !Number.isFinite(x)`. `Number.isFinite` is false for every
   * non-number, so the comparison only matters for numbers.
   */
  predicate AmountRejected(v: JsValue) {
    Falsy(v) || (v.Num? && v.n <= 0.0) || !v.Num?
  }

  /** A symbol the ledger accepts: a string with at least one non-space character. */
  predicate GoodSymbol(v: JsValue) {
    v.Str? && exists i :: 0 <= i < |v.s| && !IsSpace(v.s[i])
  }

  /** A quantity or price the ledger accepts: a strictly positive number. */
  predicate Positive(v: JsValue) {
    v.Num? && v.n > 0.0
  }

  /** Position of a message in the order the checks run. */
  function Rank(e: string): nat {
    if e == SymbolError then 0 else if e == QuantityError then 1 else 2
  }

  /** The messages for the failed checks, in check order. */
  function ErrorList(symbolBad: bool, quantityBad: bool, priceBad: bool): (errors: seq<string>)
    ensures errors == [] <==> !symbolBad && !quantityBad && !priceBad
    ensures |errors| <= 3
    ensures SymbolError in errors <==> symbolBad
    ensures QuantityError in errors <==> quantityBad
    ensures PriceError in errors <==> priceBad
    ensures forall i :: 0 <= i < |errors| ==> errors[i] in {SymbolError, QuantityError, PriceError}
    ensures forall i, j :: 0 <= i < j < |errors| ==> Rank(errors[i]) < Rank(errors[j])
  {
    assert |SymbolError| == 24 && |QuantityError| == 35 && |PriceError| == 32;
    var a := if symbolBad then [SymbolError] else [];
    var b := if quantityBad then [QuantityError] else [];
    var c := if priceBad then [PriceError] else [];
    assert Rank(SymbolError) == 0 && Rank(QuantityError) == 1 && Rank(PriceError) == 2;
    a + b + c
  }

  /**
   * `validateStockInput`: one message per failed check, in the order symbol, quantity,
   * price. The list is empty exactly when the symbol is a non-blank string and quantity
   * and price are positive numbers.
   */
  function ValidateStockInput(symbol: JsValue, quantity: JsValue, price: JsValue): (errors: seq<string>)
    ensures errors == [] <==> GoodSymbol(symbol) && Positive(quantity) && Positive(price)
    ensures SymbolError in errors <==> !GoodSymbol(symbol)
    ensures QuantityError in errors <==> !Positive(quantity)
    ensures PriceError in errors <==> !Positive(price)
    ensures |errors| <= 3
    ensures forall i, j :: 0 <= i < j < |errors| ==> Rank(errors[i]) < Rank(errors[j])
  {
    assert SymbolRejected(symbol) <==> !GoodSymbol(symbol) by {
      if symbol.Str? && !Falsy(symbol) {
        assert |Trim(symbol.s)| == 0 <==> forall i :: 0 <= i < |symbol.s| ==> IsSpace(symbol.s[i]);
      }
    }
    assert AmountRejected(quantity) <==> !Positive(quantity);
    assert AmountRejected(price) <==> !Positive(price);
    ErrorList(SymbolRejected(symbol), AmountRejected(quantity), AmountRejected(price))
  }
}
