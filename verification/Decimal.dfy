/** Decimal rendering of integers, as Rust's `to_string` prints them. */
module Decimal {

  function Digit(d: nat): (c: char)
    requires d < 10
    ensures '0' <= c <= '9'
  {
    '0' + d as char
  }

  function Natural(n: nat): (s: string)
    ensures s != []
    ensures forall i :: 0 <= i < |s| ==> '0' <= s[i] <= '9'
  {
    if n < 10 then [Digit(n)] else Natural(n / 10) + [Digit(n % 10)]
  }

  function Integer(n: int): (s: string)
    ensures s != []
  {
    if n < 0 then "-" + Natural(-n) else Natural(n)
  }

  /** The number that a string of digits denotes. */
  function Parse(s: string): nat
    requires forall i :: 0 <= i < |s| ==> '0' <= s[i] <= '9'
  {
    if s == [] then 0 else Parse(s[..|s| - 1]) * 10 + (s[|s| - 1] as nat - '0' as nat)
  }

  lemma {:induction false} ParseInvertsNatural(n: nat)
    ensures Parse(Natural(n)) == n
  {
    if n >= 10 {
      var s := Natural(n);
      ParseInvertsNatural(n / 10);
      assert s[..|s| - 1] == Natural(n / 10);
    }
  }

  lemma NaturalInjective(m: nat, n: nat)
    ensures Natural(m) == Natural(n) ==> m == n
  {
    ParseInvertsNatural(m);
    ParseInvertsNatural(n);
  }

  lemma IntegerInjective(m: int, n: int)
    ensures Integer(m) == Integer(n) ==> m == n
  {
    if Integer(m) == Integer(n) {
      assert Integer(m)[0] == Integer(n)[0];
      if m < 0 {
        assert Integer(m)[1..] == Natural(-m);
        assert Integer(n)[1..] == Natural(-n);
        NaturalInjective(-m, -n);
      } else {
        NaturalInjective(m, n);
      }
    }
  }

  /** The most significant digit comes first, behind the sign if there is one. */
  lemma DigitsInOrder()
    ensures Natural(0) == "0" && Natural(1024) == "1024" && Integer(-307) == "-307"
  {
    assert Natural(1) == "1" && Natural(10) == "10" && Natural(102) == "102";
    assert Natural(3) == "3" && Natural(30) == "30";
  }
}
