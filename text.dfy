/**
 * The string operations the ledger applies to ticker symbols: `String.prototype.trim`
 * and `toUpperCase`, and the normal form that the schema setters (`uppercase: true`,
 * `trim: true`) store.
 */
module Text {

  /** JavaScript WhiteSpace and LineTerminator code points, the set `trim` strips. */
  predicate IsSpace(c: char) {
    var n := c as int;
    || 0x09 <= n <= 0x0D                    // tab, line feed, vertical tab, form feed, carriage return
    || n == 0x20 || n == 0xA0 || n == 0x1680  // space, no-break space, ogham space mark
    || 0x2000 <= n <= 0x200A                // en quad .. hair space
    || n == 0x2028 || n == 0x2029           // line and paragraph separators
    || n == 0x202F || n == 0x205F || n == 0x3000 || n == 0xFEFF
  }

  predicate IsLower(c: char) { 'a' <= c <= 'z' }

  /** The first position at or after `from` that does not hold white space, or `|s|` when there is none. */
  function SkipSpaces(s: string, from: nat): (k: nat)
    requires from <= |s|
    ensures from <= k <= |s|
    ensures forall i :: from <= i < k ==> IsSpace(s[i])
    ensures k == |s| || !IsSpace(s[k])
    decreases |s| - from
  {
    if from < |s| && IsSpace(s[from]) then SkipSpaces(s, from + 1) else from
  }

  /** The end of the content before position `to`: the largest `k <= to` such that `s[k - 1]` is not white space, or 0. */
  function ContentEnd(s: string, to: nat): (k: nat)
    requires to <= |s|
    ensures k <= to
    ensures forall i :: k <= i < to ==> IsSpace(s[i])
    ensures k == 0 || !IsSpace(s[k - 1])
  {
    if to > 0 && IsSpace(s[to - 1]) then ContentEnd(s, to - 1) else to
  }

  /** Number of leading white-space characters of `s`. */
  function LeadingSpaces(s: string): (n: nat)
    ensures n <= |s|
  {
    SkipSpaces(s, 0)
  }

  /**
   * `s.trim()`: the slice of `s` left after dropping white space at both ends. Every
   * dropped character is white space and the slice neither starts nor ends with one.
   */
  function Trim(s: string): (r: string)
    ensures LeadingSpaces(s) + |r| <= |s| && r == s[LeadingSpaces(s)..LeadingSpaces(s) + |r|]
    ensures forall i :: 0 <= i < LeadingSpaces(s) ==> IsSpace(s[i])
    ensures forall i :: LeadingSpaces(s) + |r| <= i < |s| ==> IsSpace(s[i])
    ensures r == [] || (!IsSpace(r[0]) && !IsSpace(r[|r| - 1]))
    ensures r == [] <==> forall i :: 0 <= i < |s| ==> IsSpace(s[i])
  {
    var start := SkipSpaces(s, 0);
    if start == |s| then []
    else
      var end := ContentEnd(s, |s|);
      assert start < end by {
        assert !IsSpace(s[start]);
      }
      s[start..end]
  }

  function UpperChar(c: char): (u: char)
    ensures !IsLower(u)
    ensures IsSpace(u) <==> IsSpace(c)
  {
    if IsLower(c) then (c as int - 32) as char else c
  }

  /** `s.toUpperCase()` on the ASCII letters: same length, each lower-case letter replaced by its capital, other characters kept. */
  function ToUpper(s: string): (r: string)
    ensures |r| == |s|
    ensures forall i :: 0 <= i < |s| ==> !IsLower(r[i])
    ensures forall i :: 0 <= i < |s| && !IsLower(s[i]) ==> r[i] == s[i]
    ensures forall i :: 0 <= i < |s| && IsLower(s[i]) ==> r[i] == (s[i] as int - 32) as char
  {
    seq(|s|, i requires 0 <= i < |s| => UpperChar(s[i]))
  }

  lemma ToUpperIdempotent(s: string)
    ensures ToUpper(ToUpper(s)) == ToUpper(s)
  {
    var u := ToUpper(s);
    assert forall i :: 0 <= i < |u| ==> ToUpper(u)[i] == u[i];
  }

  /** The form in which the schemas store a symbol: upper-cased, then trimmed. */
  function Normalize(s: string): string {
    Trim(ToUpper(s))
  }

  /** A symbol already in stored form: no lower-case letter and no surrounding white space. */
  predicate IsNormal(s: string) {
    (forall i :: 0 <= i < |s| ==> !IsLower(s[i])) && (s == [] || (!IsSpace(s[0]) && !IsSpace(s[|s| - 1])))
  }

  lemma NormalizeIsNormal(s: string)
    ensures IsNormal(Normalize(s))
  {
    var u := ToUpper(s);
    var r := Trim(u);
    var k := LeadingSpaces(u);
    forall i | 0 <= i < |r| ensures !IsLower(r[i]) {
      assert r[i] == u[k + i];
    }
  }

  /** The stored form is a fixed point: normalising a stored symbol again changes nothing. */
  lemma NormalIsFixed(s: string)
    requires IsNormal(s)
    ensures Normalize(s) == s
  {
    assert ToUpper(s) == s;
  }

  lemma NormalizeIdempotent(s: string)
    ensures Normalize(Normalize(s)) == Normalize(s)
  {
    NormalizeIsNormal(s);
    NormalIsFixed(Normalize(s));
  }

  /** Upper-casing keeps white space where it was, so a symbol is blank exactly when its stored form is empty. */
  lemma NormalizeNonEmpty(s: string)
    ensures Normalize(s) != [] <==> Trim(s) != []
  {
    var u := ToUpper(s);
    if Trim(s) != [] {
      var i :| 0 <= i < |s| && !IsSpace(s[i]);
      assert !IsSpace(u[i]);
    }
    if Normalize(s) != [] {
      var i :| 0 <= i < |u| && !IsSpace(u[i]);
      assert !IsSpace(s[i]);
    }
  }
}
