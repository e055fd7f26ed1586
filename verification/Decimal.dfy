/** Decimal integers as text (strconv.Itoa, strconv.FormatInt, strconv.Atoi). */
module Decimal {
  import opened Common

  function Digit(d: nat): char
    requires d < 10
  {
    '0' + d as char
  }

  predicate IsDigit(c: char) { '0' <= c <= '9' }

  function FormatNat(n: nat): (s: string)
    ensures s != [] && forall i :: 0 <= i < |s| ==> IsDigit(s[i])
  {
    if n < 10 then [Digit(n)] else FormatNat(n / 10) + [Digit(n % 10)]
  }

  function FormatInt(n: int): string {
    if n < 0 then "-" + FormatNat(-n) else FormatNat(n)
  }

  /** The value of a digit string; None for anything else, the empty string included. */
  function ParseNat(s: string): Option<nat> {
    if s == [] then None
    else
      var init, c := s[..|s| - 1], s[|s| - 1];
      if !IsDigit(c) then None
      else if init == [] then Some((c - '0') as nat)
      else
        match ParseNat(init)
        case None => None
        case Some(v) => Some(10 * v + (c - '0') as nat)
  }

  lemma {:induction false} ParseFormat(n: nat)
    ensures ParseNat(FormatNat(n)) == Some(n)
  {
    if n >= 10 {
      ParseFormat(n / 10);
      var s := FormatNat(n / 10);
      assert (s + [Digit(n % 10)])[..|s|] == s;
    }
  }

  lemma SignShows(n: int)
    ensures FormatInt(n) != [] && (FormatInt(n)[0] == '-' <==> n < 0)
    ensures n < 0 ==> FormatInt(n)[1..] == FormatNat(-n)
  {
  }

  lemma FormatIntInjective(m: int, n: int)
    requires FormatInt(m) == FormatInt(n)
    ensures m == n
  {
    SignShows(m);
    SignShows(n);
    ParseFormat(if m < 0 then -m else m);
    ParseFormat(if n < 0 then -n else n);
  }
}
