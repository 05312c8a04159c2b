/** Decimal numerals. */
module Numerals {
  import opened Wrappers

  predicate IsDigit(c: char) { '0' <= c <= '9' }

  function Decimal(n: nat): (s: string)
    ensures s != "" && forall k :: 0 <= k < |s| ==> IsDigit(s[k])
  {
    (if n < 10 then "" else Decimal(n / 10)) + [('0' as int + n % 10) as char]
  }

  /** The number some digits stand for. */
  function Digits(s: string): Option<nat> {
    if s == "" then Some(0)
    else if !IsDigit(s[|s| - 1]) then None
    else match Digits(s[..|s| - 1]) case None => None case Some(n) => Some(10 * n + (s[|s| - 1] as int - '0' as int))
  }

  /** The whole number of which a text is the canonical numeral. */
  function Whole(s: string): Option<nat> {
    if s == "" || (s[0] == '0' && s != "0") then None else Digits(s)
  }

  /** A number has one canonical numeral. */
  lemma {:induction false} WholeOnce(s: string, t: string)
    requires Whole(s).Some? && Whole(s) == Whole(t)
    ensures s == t
    decreases |s|
  {
    hide Digits, Whole;
    Shorter(s);
    Shorter(t);
    var a, b := s[..|s| - 1], t[..|t| - 1];
    assert s == a + [s[|s| - 1]] && t == b + [t[|t| - 1]];
    if a == "" || b == "" {
      assert a == "" && b == "";
    } else {
      WholeOnce(a, b);
    }
  }

  /** Without its last digit a canonical numeral is nothing, or canonical and not that of zero. */
  lemma Shorter(s: string)
    requires Whole(s).Some?
    ensures s != "" && Whole(s) == Digits(s)
    ensures var a, d := s[..|s| - 1], s[|s| - 1] as int - '0' as int;
            0 <= d < 10 && if a == "" then Digits(s) == Some(d) else Whole(a).Some? && Whole(a).value > 0 && Digits(s) == Some(10 * Whole(a).value + d)
  {
    var a := s[..|s| - 1];
    if a != "" { Positive(a); }
  }

  lemma {:induction false} Positive(s: string)
    requires s != "" && s[0] != '0' && Digits(s).Some?
    ensures Digits(s).value > 0
    decreases |s|
  {
    var a := s[..|s| - 1];
    if a != "" { Positive(a); }
  }

  lemma {:induction false} DigitsDecimal(n: nat)
    ensures Digits(Decimal(n)) == Some(n)
  {
    var s := Decimal(n);
    if n < 10 {
      assert s[..|s| - 1] == "";
    } else {
      DigitsDecimal(n / 10);
      assert s[..|s| - 1] == Decimal(n / 10);
    }
  }

  /** The canonical numeral of a number is its decimal one. */
  lemma {:induction false} WholeDecimal(n: nat)
    ensures Whole(Decimal(n)) == Some(n) && (n > 0 ==> Decimal(n)[0] != '0')
  {
    DigitsDecimal(n);
    var s := Decimal(n);
    if n >= 10 {
      WholeDecimal(n / 10);
      assert s[0] == Decimal(n / 10)[0];
    } else {
      assert s == [('0' as int + n) as char];
    }
  }
}
