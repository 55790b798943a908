/** Decimal integers, as package strconv writes and reads them. */
module Numbers {
  import opened Wrappers

  predicate IsDigit(c: char) { '0' <= c <= '9' }

  function Digit(d: nat): (c: char)
    requires d < 10
    ensures IsDigit(c) && (c as int) - ('0' as int) == d
  {
    (('0' as int) + d) as char
  }

  /** strconv.Itoa of a number that is not negative. */
  function Itoa(n: nat): (s: string)
    ensures s != "" && forall i :: 0 <= i < |s| ==> IsDigit(s[i])
  {
    if n < 10 then [Digit(n)] else Itoa(n / 10) + [Digit(n % 10)]
  }

  function Atoi(s: string): Option<nat> {
    if s == "" || !IsDigit(s[|s| - 1]) then None
    else
      var d := (s[|s| - 1] as int) - ('0' as int);
      if |s| == 1 then Some(d)
      else match Atoi(s[..|s| - 1])
        case None => None
        case Some(n) => Some(10 * n + d)
  }

  lemma {:induction false} AtoiReadsItoa(n: nat)
    ensures Atoi(Itoa(n)) == Some(n)
  {
    if n >= 10 {
      AtoiReadsItoa(n / 10);
      var s := Itoa(n);
      assert s[..|s| - 1] == Itoa(n / 10);
    }
  }

  lemma ItoaIsInjective(m: nat, n: nat)
    requires Itoa(m) == Itoa(n)
    ensures m == n
  {
    AtoiReadsItoa(m);
    AtoiReadsItoa(n);
  }

  function Minus(n: int): int {
    -n
  }

  /** strconv.FormatInt, base 10. */
  function FormatInt(n: int): string {
    if n < 0 then "-" + Itoa(-n) else Itoa(n)
  }

  /** strconv.ParseInt, base 10, without the range check. */
  function ParseInt(s: string): Option<int> {
    if s != "" && s[0] == '-' then
      match Atoi(s[1..])
      case None => None
      case Some(n) => Some(Minus(n))
    else
      match Atoi(if s != "" && s[0] == '+' then s[1..] else s)
      case None => None
      case Some(n) => Some(n)
  }

  /** A number is printed without leading zeros. */
  lemma {:induction false} ItoaIsShort(n: nat)
    ensures |Itoa(n)| > 1 ==> Itoa(n)[0] != '0'
    ensures Itoa(n) == "0" <==> n == 0
  {
    if n >= 10 { ItoaIsShort(n / 10); }
  }

  lemma ParseReadsFormat(n: int)
    ensures ParseInt(FormatInt(n)) == Some(n) && '\0' !in FormatInt(n)
  {
    AtoiReadsItoa(if n < 0 then -n else n);
    var s := FormatInt(n);
    if n < 0 { assert s[1..] == Itoa(-n); }
  }

  /** What is printed is the shortest form: a sign only for a negative number, no leading zero; a plus may be read. */
  lemma FormatIsShort(n: int)
    requires n >= 0
    ensures FormatInt(n)[0] != '-' && (|FormatInt(n)| > 1 ==> FormatInt(n)[0] != '0')
    ensures n > 0 ==> FormatInt(-n) == "-" + FormatInt(n)
    ensures ParseInt("+" + FormatInt(n)) == Some(n)
  {
    AtoiReadsItoa(n);
    ItoaIsShort(n);
    assert ("+" + Itoa(n))[1..] == Itoa(n);
  }
}
