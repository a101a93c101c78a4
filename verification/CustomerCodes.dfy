/** CUST-NNNNN codes: decimal numerals zero-padded to five digits. */
module CustomerCodes {

  function Digit(d: nat): char
    requires d < 10
  {
    ('0' as int + d) as char
  }

  function Decimal(n: nat): string {
    if n < 10 then [Digit(n)] else Decimal(n / 10) + [Digit(n % 10)]
  }

  function Zeros(k: nat): string {
    seq(k, _ => '0')
  }

  /** f"{n:05d}" */
  function Padded(n: nat): string {
    var d := Decimal(n);
    if |d| < 5 then Zeros(5 - |d|) + d else d
  }

  function CustCode(n: nat): string {
    "CUST-" + Padded(n)
  }

  predicate IsDigits(s: string) {
    forall i :: 0 <= i < |s| ==> '0' <= s[i] <= '9'
  }

  function ValueOf(s: string): nat
    requires IsDigits(s)
  {
    if s == "" then 0 else ValueOf(s[..|s| - 1]) * 10 + (s[|s| - 1] as int - '0' as int)
  }

  lemma {:induction false} DecimalValue(n: nat)
    ensures IsDigits(Decimal(n)) && ValueOf(Decimal(n)) == n
  {
    if n < 10 {
      assert Decimal(n)[..0] == "";
    } else {
      DecimalValue(n / 10);
      assert Decimal(n)[..|Decimal(n)| - 1] == Decimal(n / 10);
    }
  }

  lemma {:induction false} LeadingZeros(k: nat, s: string)
    requires IsDigits(s)
    ensures IsDigits(Zeros(k) + s) && ValueOf(Zeros(k) + s) == ValueOf(s)
    decreases k + |s|
  {
    var t := Zeros(k) + s;
    if s == "" {
      if k > 0 {
        assert t[..|t| - 1] == Zeros(k - 1) + "";
        LeadingZeros(k - 1, "");
      }
    } else {
      assert t[..|t| - 1] == Zeros(k) + s[..|s| - 1];
      LeadingZeros(k, s[..|s| - 1]);
    }
  }

  lemma PaddedValue(n: nat)
    ensures IsDigits(Padded(n)) && ValueOf(Padded(n)) == n
  {
    DecimalValue(n);
    if |Decimal(n)| < 5 {
      LeadingZeros(5 - |Decimal(n)|, Decimal(n));
    }
  }

  /** The codes of different sequence numbers differ, past 99999 too. */
  lemma CustCodeInjective(m: nat, n: nat)
    ensures CustCode(m) == CustCode(n) ==> m == n
  {
    PaddedValue(m);
    PaddedValue(n);
    assert CustCode(m)[5..] == Padded(m);
    assert CustCode(n)[5..] == Padded(n);
  }

  lemma {:induction false} DecimalSize(n: nat)
    ensures |Decimal(n)| > 1 ==> Decimal(n)[0] != '0'
    ensures n < 10 ==> |Decimal(n)| == 1
    ensures n < 100_000 ==> |Decimal(n)| <= 5
  {
    if n >= 10 {
      DecimalSize(n / 10);
      if n < 100_000 {
        var a, b, c := n / 10, n / 100, n / 1000;
        assert a / 10 == b && b / 10 == c && c / 10 < 10;
        assert |Decimal(c / 10)| == 1 && |Decimal(c)| <= 2 && |Decimal(b)| <= 3 && |Decimal(a)| <= 4;
      }
    }
  }

  /** "CUST-", then the number in at least five digits, and no more zeros before it than that takes. */
  lemma CustCodeShape(n: nat)
    ensures |CustCode(n)| >= 10 && CustCode(n)[..5] == "CUST-"
    ensures IsDigits(CustCode(n)[5..]) && ValueOf(CustCode(n)[5..]) == n
    ensures n < 100_000 ==> |CustCode(n)| == 10
    ensures |CustCode(n)| > 10 ==> CustCode(n)[5] != '0'
  {
    assert CustCode(n)[5..] == Padded(n);
    PaddedValue(n);
    DecimalSize(n);
  }
}
