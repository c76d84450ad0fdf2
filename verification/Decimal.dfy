/** Decimal text of integers, as printf's %d and ostream's << write it. */
module Decimal {
  import opened Wrappers

  const DIGITS: string := "0123456789"

  function NatText(n: nat): (r: string)
    ensures r != [] && forall c <- r :: '0' <= c <= '9'
  {
    if n < 10 then [DIGITS[n]] else NatText(n / 10) + [DIGITS[n % 10]]
  }

  function IntText(i: int): (r: string)
    ensures r != []
    ensures forall c <- r :: '0' <= c <= '9' || c == '-'
  {
    if i < 0 then "-" + NatText(-i) else NatText(i)
  }

  function NatValue(s: string): (r: Option<int>)
    ensures r.Some? ==> r.value >= 0
    decreases |s|
  {
    if s == [] || !('0' <= s[|s| - 1] <= '9') then None
    else
      var d := s[|s| - 1] as int - '0' as int;
      if |s| == 1 then Some(d)
      else
        match NatValue(s[..|s| - 1])
        case None => None
        case Some(high) => Some(high * 10 + d)
  }

  function IntValue(s: string): (r: Option<int>) {
    if s != [] && s[0] == '-' then
      match NatValue(s[1..])
      case None => None
      case Some(n) => Some(-n)
    else NatValue(s)
  }

  lemma {:induction false} NatRoundTrip(n: nat)
    ensures NatValue(NatText(n)) == Some(n)
  {
    if n >= 10 {
      NatRoundTrip(n / 10);
      assert NatText(n)[..|NatText(n)| - 1] == NatText(n / 10);
    }
  }

  function PowerOfTen(n: nat): nat {
    if n == 0 then 1 else 10 * PowerOfTen(n - 1)
  }

  lemma Distribute(x: nat, p: nat, y: nat)
    ensures (x * p + y) * 10 == x * (10 * p) + y * 10
  {}

  /** A digit counts ten times as much for every digit behind it. */
  lemma {:induction false} PlacesCount(high: string, low: string)
    requires NatValue(high).Some? && NatValue(low).Some?
    ensures NatValue(high + low) == Some(NatValue(high).value * PowerOfTen(|low|) + NatValue(low).value)
    decreases |low|
  {
    var n := |low| - 1;
    var text := high + low;
    assert text[|text| - 1] == low[n] && text[..|text| - 1] == high + low[..n];
    if n == 0 {
      assert high + low[..0] == high;
      assert PowerOfTen(1) == 10;
    } else {
      PlacesCount(high, low[..n]);
      Distribute(NatValue(high).value, PowerOfTen(n), NatValue(low[..n]).value);
    }
  }

  lemma SignedValue(digits: string)
    requires digits != [] && digits[0] != '-'
    ensures IntValue(digits) == NatValue(digits)
    ensures IntValue("-" + digits) == match NatValue(digits) case None => None case Some(n) => Some(-n)
  {
    assert ("-" + digits)[1..] == digits;
  }

  lemma {:induction false} IntRoundTrip(i: int)
    ensures IntValue(IntText(i)) == Some(i)
  {
    var digits := NatText(if i < 0 then -i else i);
    assert digits[0] in digits;
    SignedValue(digits);
    NatRoundTrip(if i < 0 then -i else i);
  }

  lemma {:induction false} NatTextInjective(m: nat, n: nat)
    requires NatText(m) == NatText(n)
    ensures m == n
  {
    NatRoundTrip(m);
    NatRoundTrip(n);
  }
}
