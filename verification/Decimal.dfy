/** Decimal numerals as the formatted printers write them, and their reader. */
module Decimal {
  import opened Wrappers

  function Digit(d: nat): char
    requires d < 10
  {
    ('0' as int + d) as char
  }

  predicate IsDigit(c: char) { '0' <= c <= '9' }

  function Dec(n: nat): (s: string)
    ensures s != "" && forall i :: 0 <= i < |s| ==> IsDigit(s[i])
  {
    if n < 10 then [Digit(n)] else Dec(n / 10) + [Digit(n % 10)]
  }

  function Digits(s: string): (k: nat)
    ensures k <= |s| && (forall i :: 0 <= i < k ==> IsDigit(s[i])) && (k < |s| ==> !IsDigit(s[k]))
  {
    if s == "" || !IsDigit(s[0]) then 0 else 1 + Digits(s[1..])
  }

  function Value(s: string): nat
    requires forall i :: 0 <= i < |s| ==> IsDigit(s[i])
  {
    if s == "" then 0 else
    assert IsDigit(s[|s|-1]);
    Value(s[..|s|-1]) * 10 + (s[|s|-1] as int - '0' as int)
  }

  function ReadDec(s: string): (r: Option<(nat, string)>)
    ensures r.Some? ==> |r.value.1| < |s|
  {
    var k := Digits(s);
    if k == 0 then None else Some((Value(s[..k]), s[k..]))
  }

  lemma {:induction false} ValueOfDec(n: nat)
    ensures Value(Dec(n)) == n
  {
    if n >= 10 {
      ValueOfDec(n / 10);
      assert Dec(n)[..|Dec(n)|-1] == Dec(n / 10);
    }
  }

  lemma ReadDecOf(n: nat, rest: string)
    requires rest == "" || !IsDigit(rest[0])
    ensures ReadDec(Dec(n) + rest) == Some((n, rest))
  {
    var s := Dec(n) + rest;
    var k := Digits(s);
    assert forall i :: 0 <= i < |Dec(n)| ==> IsDigit(s[i]);
    assert rest != "" ==> !IsDigit(s[|Dec(n)|]);
    assert k == |Dec(n)|;
    assert s[..k] == Dec(n) && s[k..] == rest;
    ValueOfDec(n);
  }
}
