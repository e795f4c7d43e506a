/** Text primitives of the `.dat` writer: the unit-name sanitisation `replace(' ', '_')`,
    the decimal rendering of the integers it writes (`%d` and `str(h+1)`), and the
    parser that reads such a rendering back. */
module DatText {

  datatype Option<T> = None | Some(value: T)

  /** `s.replace(' ', '_')`. */
  function Sanitize(s: string): (r: string)
    ensures |r| == |s|
    ensures forall k :: 0 <= k < |s| && s[k] == ' ' ==> r[k] == '_'
    ensures forall k :: 0 <= k < |s| && s[k] != ' ' ==> r[k] == s[k]
    ensures ' ' !in r
    decreases |s|
  {
    if s == [] then []
    else
      var rest := Sanitize(s[1..]);
      var r := [if s[0] == ' ' then '_' else s[0]] + rest;
      assert forall k :: 1 <= k < |r| ==> r[k] == rest[k - 1];
      r
  }

  /** Sanitising twice is sanitising once. */
  lemma SanitizeIdempotent(s: string)
    ensures Sanitize(Sanitize(s)) == Sanitize(s)
  {
    var r := Sanitize(s);
    assert forall k :: 0 <= k < |r| ==> Sanitize(r)[k] == r[k];
  }

  /** A name without spaces is written unchanged. */
  lemma SanitizeKeepsSpaceFree(s: string)
    requires ' ' !in s
    ensures Sanitize(s) == s
  {
    assert forall k :: 0 <= k < |s| ==> s[k] != ' ';
  }

  predicate IsDigit(c: char) { '0' <= c <= '9' }

  predicate AllDigits(s: string) { forall k :: 0 <= k < |s| ==> IsDigit(s[k]) }

  function DigitChar(d: nat): (c: char)
    requires d < 10
    ensures IsDigit(c) && c as int - '0' as int == d
  {
    (d + '0' as int) as char
  }

  /** Decimal rendering of a natural number, as Python's `str(n)` and `'%d' % n` write it. */
  function NatToString(n: nat): (r: string)
    ensures |r| >= 1 && AllDigits(r)
    ensures r[0] == '0' ==> n == 0 && r == "0"
    decreases n
  {
    if n < 10 then [DigitChar(n)]
    else
      var front := NatToString(n / 10);
      var r := front + [DigitChar(n % 10)];
      assert r[0] == front[0];
      r
  }

  /** Reads a string of decimal digits. */
  function ParseNat(s: string): nat
    requires AllDigits(s)
    decreases |s|
  {
    if s == [] then 0
    else ParseNat(s[..|s| - 1]) * 10 + (s[|s| - 1] as int - '0' as int)
  }

  /** Reading a rendered number gives the number back. */
  lemma {:induction false} ParseNatToString(n: nat)
    ensures ParseNat(NatToString(n)) == n
    decreases n
  {
    if n >= 10 {
      ParseNatToString(n / 10);
      var r := NatToString(n);
      assert r[..|r| - 1] == NatToString(n / 10);
    }
  }

  /** Different numbers are rendered differently. */
  lemma NatToStringInjective(m: nat, n: nat)
    requires NatToString(m) == NatToString(n)
    ensures m == n
  {
    ParseNatToString(m);
    ParseNatToString(n);
  }

  /** Reads a non-empty string of decimal digits; anything else is not a number. */
  function ReadNat(s: string): Option<nat>
  {
    if s != [] && AllDigits(s) then Some(ParseNat(s)) else None
  }

  /** Every rendered number is read back as itself. */
  lemma ReadNatToString(n: nat)
    ensures ReadNat(NatToString(n)) == Some(n)
  {
    ParseNatToString(n);
  }
}
