/** Decimal integers as strconv.Itoa writes and strconv.Atoi reads them. */
module Decimal {
  import opened Text

  const MAX_INT := 0x7FFF_FFFF_FFFF_FFFF

  predicate IsDigit(ch: char) { '0' <= ch <= '9' }

  predicate AllDigits(s: string) {
    forall i :: 0 <= i < |s| ==> IsDigit(s[i])
  }

  function DigitOf(n: nat): (d: char)
    requires n < 10
    ensures IsDigit(d) && ValueOf(d) == n
  {
    '0' + n as char
  }

  function ValueOf(ch: char): nat
    requires IsDigit(ch)
  {
    (ch as int) - ('0' as int)
  }

  function NatText(n: nat): (s: string)
    ensures s != "" && AllDigits(s)
  {
    if n < 10 then [DigitOf(n)] else NatText(n / 10) + [DigitOf(n % 10)]
  }

  function Itoa(n: int): string {
    if n < 0 then "-" + NatText(-n) else NatText(n)
  }

  /** The value of the digits s[from..end]. */
  function NatValue(s: string, from: nat, end: nat): Option<nat>
    requires from <= end <= |s|
    decreases end
  {
    if from == end then Some(0)
    else if !IsDigit(s[end - 1]) then None
    else
      match NatValue(s, from, end - 1)
      case Some(value) => Some(10 * value + ValueOf(s[end - 1]))
      case None => None
  }

  /** An optional sign and at least one digit, within 64 bits. */
  function Atoi(s: string): Option<int> {
    var from := if s != "" && (s[0] == '-' || s[0] == '+') then 1 else 0;
    if from == |s| then None
    else
      match NatValue(s, from, |s|)
      case None => None
      case Some(value) =>
        var n: int := if s[0] == '-' then 0 - value else value;
        if -MAX_INT - 1 <= n <= MAX_INT then Some(n) else None
  }

  lemma {:induction false} NatIsRead(sign: string, n: nat)
    ensures NatValue(sign + NatText(n), |sign|, |sign + NatText(n)|) == Some(n)
  {
    var s := sign + NatText(n);
    if n >= 10 {
      var front := NatText(n / 10);
      NatIsRead(sign, n / 10);
      NatValueOfPrefix(sign + front, s, |sign|, |sign + front|);
    }
  }

  lemma {:induction false} NatValueOfPrefix(a: string, b: string, from: nat, end: nat)
    requires from <= end <= |a| && a <= b
    ensures NatValue(a, from, end) == NatValue(b, from, end)
  {
    if from < end {
      NatValueOfPrefix(a, b, from, end - 1);
    }
  }

  /** Atoi undoes Itoa on every 64-bit integer. */
  lemma IntIsRead(n: int)
    requires -MAX_INT - 1 <= n <= MAX_INT
    ensures Atoi(Itoa(n)) == Some(n)
  {
    if n < 0 {
      NatIsRead("-", -n);
    } else {
      NatIsRead("", n);
      assert "" + NatText(n) == NatText(n);
      assert IsDigit(NatText(n)[0]);
    }
  }

  lemma ItoaHasNoBreaks(n: int)
    ensures Itoa(n) != "" && forall i :: 0 <= i < |Itoa(n)| ==> Itoa(n)[i] == '-' || IsDigit(Itoa(n)[i])
  {
  }

  /** A sign before a negative number only, the highest digit first and none to spare. */
  lemma SomeNumbers()
    ensures Itoa(0) == "0" && Itoa(1) == "1" && Itoa(2) == "2" && Itoa(-45) == "-45" && Itoa(120) == "120"
  {
    assert NatText(4) == "4" && NatText(45) == "45" && NatText(1) == "1" && NatText(12) == "12";
  }
}
