/**
 * The holding lookup of `buyStock` and `sellStock` as written: it searches the
 * holdings for `symbol.toUpperCase()`, while the schema stores each holding's symbol
 * upper-cased AND trimmed. A symbol that passes validation but carries surrounding
 * white space therefore misses the holding it names. The rest of the model looks
 * holdings up by the stored form, `Normalize`, which is what the lookup evidently
 * intends; `LedgerLaws.BuyHoldingsKeepInvariant` proves that this keeps symbols unique.
 */
module Findings {
  import opened Money
  import opened Text
  import opened Records
  import opened Ledger

  /** The holdings after a buy whose lookup key is the upper-cased but untrimmed symbol. */
  function BuyHoldingsAsWritten(hs: seq<Holding>, o: Order, quote: real): (r: seq<Holding>)
    requires forall j :: 0 <= j < |hs| ==> hs[j].quantity >= 0.0
    requires o.quantity > 0.0
    ensures |r| == |hs| || r == hs + [OpenHolding(ToUpper(o.symbol), o, quote)]
  {
    BuyHoldings(hs, ToUpper(o.symbol), o, quote)
  }

  /** The held apple position that the two counterexamples start from. */
  function ApplePosition(): (h: Holding)
    ensures LiveHolding(h)
  {
    var h := Holding("AAPL", 10.0, 100.0, 1000.0, 1000.0, 0.0, 0.0);
    assert IsCents(h.totalInvested) by {
      assert (1000.0 * 100.0).Floor == 100000;
    }
    h
  }

  /** How the sample symbol is upper-cased and stored. */
  lemma SampleSymbolForms()
    ensures ToUpper("aapl ") == "AAPL "
    ensures Normalize("aapl ") == "AAPL" && Normalize("AAPL ") == "AAPL"
    ensures Trim("aapl ") != []
  {
    assert ToUpper("aapl ") == ['A', 'A', 'P', 'L', ' '];
    assert ToUpper("AAPL ") == "AAPL ";
    assert Trim("AAPL ") == "AAPL" by {
      assert SkipSpaces("AAPL ", 0) == 0;
      assert ContentEnd("AAPL ", 5) == 4;
    }
    NormalizeNonEmpty("aapl ");
  }

  /**
   * Buying `"aapl "` while `"AAPL"` is held: the order is valid and both symbols are
   * stored as `"AAPL"`, yet the lookup for `"AAPL "` finds nothing, so a second
   * `"AAPL"` holding is appended and the portfolio holds the symbol twice.
   */
  lemma BuyAsWrittenDuplicatesSymbol(quote: real)
    ensures var hs := [ApplePosition()];
            var o := Order("aapl ", 1.0, 100.0);
            && ValidOrder(o) && AllLive(hs) && UniqueSymbols(hs)
            && Normalize(o.symbol) == hs[0].symbol
            && !UniqueSymbols(BuyHoldingsAsWritten(hs, o, quote))
  {
    var hs := [ApplePosition()];
    var o := Order("aapl ", 1.0, 100.0);
    SampleSymbolForms();
    assert !Holds(hs, "AAPL ") by {
      assert hs[0].symbol != "AAPL ";
    }
    var r := BuyHoldingsAsWritten(hs, o, quote);
    assert r == hs + [OpenHolding("AAPL ", o, quote)];
    assert r[0] == hs[0] && r[1].symbol == "AAPL";
  }

  /**
   * The same order sold against the same portfolio: the sell's lookup misses too, so
   * the handler reports that the symbol is not held although it is.
   */
  lemma SellAsWrittenMissesHolding()
    ensures var hs := [ApplePosition()];
            var o := Order("aapl ", 1.0, 100.0);
            && ValidOrder(o) && Holds(hs, Normalize(o.symbol))
            && IndexOf(hs, ToUpper(o.symbol)) == -1
  {
    var hs := [ApplePosition()];
    SampleSymbolForms();
    assert hs[0].symbol != "AAPL ";
    assert hs[0].symbol == Normalize("aapl ");
  }

  /**
   * With the stored form as the key, the lookup finds the holding: a valid sell of a
   * symbol written with white space or in lower case reaches the position it names.
   */
  lemma LookupByStoredFormFinds(hs: seq<Holding>, o: Order, j: nat)
    requires UniqueSymbols(hs) && j < |hs|
    requires hs[j].symbol == Normalize(o.symbol)
    ensures IndexOf(hs, Normalize(o.symbol)) == j
  {
    IndexOfUnique(hs, Normalize(o.symbol), j);
  }
}
