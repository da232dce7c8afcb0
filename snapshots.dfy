/** Names of the saved page snapshots: `f"{page_counter:02d}_{description}.html"`. */
module Snapshots {

  predicate IsDigit(c: char)
  {
    '0' <= c <= '9'
  }

  predicate AllDigits(s: string)
  {
    forall k :: 0 <= k < |s| ==> IsDigit(s[k])
  }

  function DigitChar(d: nat): (c: char)
    requires d < 10
    ensures IsDigit(c) && c as int - '0' as int == d
  {
    ('0' as int + d) as char
  }

  /** `str(n)`: decimal digits without leading zeros. */
  function Decimal(n: nat): (s: string)
    ensures |s| >= 1 && AllDigits(s)
    ensures n < 10 <==> |s| == 1
    ensures n >= 10 ==> s[0] != '0'
  {
    if n < 10 then [DigitChar(n)] else Decimal(n / 10) + [DigitChar(n % 10)]
  }

  /** `format(n, '02d')`: zero-padded to at least two digits. */
  function Pad2(n: nat): (p: string)
    ensures |p| >= 2 && AllDigits(p)
    ensures n < 10 <==> p[0] == '0'
    ensures n < 100 ==> |p| == 2
  {
    if n < 10 then ['0'] + Decimal(n) else Decimal(n)
  }

  /** The file name `save_page` writes for counter value `counter`. */
  function PageName(counter: nat, description: string): (name: string)
    ensures counter < 100 ==>
      && |name| == |description| + 8
      && name[2] == '_'
    ensures |name| >= 8 && name[|name| - 5..] == ".html"
  {
    PadRoundTrip(counter);
    Pad2(counter) + "_" + description + ".html"
  }

  /** The value of a string of decimal digits. */
  function ParseDecimal(s: string): nat
    requires AllDigits(s)
  {
    if s == [] then 0
    else 10 * ParseDecimal(s[..|s| - 1]) + (s[|s| - 1] as int - '0' as int)
  }

  /** Reading the digits back gives the number. */
  lemma {:induction false} ParseDecimalOfDecimal(n: nat)
    ensures ParseDecimal(Decimal(n)) == n
  {
    if n >= 10 {
      var s := Decimal(n);
      assert s[..|s| - 1] == Decimal(n / 10);
      ParseDecimalOfDecimal(n / 10);
    }
  }

  /** A leading zero does not change the value. */
  lemma {:induction false} ParseDecimalLeadingZero(s: string)
    requires AllDigits(s)
    ensures AllDigits(['0'] + s) && ParseDecimal(['0'] + s) == ParseDecimal(s)
  {
    var z := ['0'] + s;
    if s != [] {
      assert z[..|z| - 1] == ['0'] + s[..|s| - 1];
      ParseDecimalLeadingZero(s[..|s| - 1]);
    }
  }

  /** A digit string that does not start with `0` has a positive value. */
  lemma {:induction false} LeadingDigitPositive(s: string)
    requires AllDigits(s) && s != [] && s[0] != '0'
    ensures ParseDecimal(s) >= 1
  {
    if |s| > 1 {
      LeadingDigitPositive(s[..|s| - 1]);
    }
  }

  /**
   * `Decimal` is the only way to write a number in digits without a leading
   * zero: any such string is `Decimal` of its own value.
   */
  lemma {:induction false} DecimalCanonical(s: string)
    requires AllDigits(s) && s != []
    requires |s| > 1 ==> s[0] != '0'
    ensures Decimal(ParseDecimal(s)) == s
  {
    if |s| > 1 {
      var t := s[..|s| - 1];
      DecimalCanonical(t);
      LeadingDigitPositive(t);
      var n := ParseDecimal(s);
      var d := s[|s| - 1] as int - '0' as int;
      assert n == 10 * ParseDecimal(t) + d;
      assert n / 10 == ParseDecimal(t) && n % 10 == d;
      assert DigitChar(d) == s[|s| - 1];
      assert s == t + [s[|s| - 1]];
    }
  }

  /** The padded counter is all digits, at least two of them, and reads back as the counter. */
  lemma PadRoundTrip(n: nat)
    ensures |Pad2(n)| >= 2 && AllDigits(Pad2(n))
    ensures ParseDecimal(Pad2(n)) == n
    ensures n < 100 ==> |Pad2(n)| == 2
    ensures n >= 10 ==> Pad2(n) == Decimal(n)
  {
    ParseDecimalOfDecimal(n);
    if n < 10 {
      ParseDecimalLeadingZero(Decimal(n));
    } else if n < 100 {
      assert |Decimal(n / 10)| == 1;
    }
  }

  /** A page name determines both the counter and the description. */
  lemma PageNameInjective(n1: nat, d1: string, n2: nat, d2: string)
    requires PageName(n1, d1) == PageName(n2, d2)
    ensures n1 == n2 && d1 == d2
  {
    PadRoundTrip(n1);
    PadRoundTrip(n2);
    var a, b := Pad2(n1), Pad2(n2);
    var name := PageName(n1, d1);
    assert name[|a|] == '_' && name[|b|] == '_';
    assert |a| == |b|;
    assert a == name[..|a|] == b;
    assert d1 == name[|a| + 1..|name| - 5] == d2;
  }

  /** The first nine counters are written as `0` followed by the digit. */
  lemma PageNameSingleDigit(n: nat, description: string)
    requires 1 <= n <= 9
    ensures PageName(n, description) == ['0', DigitChar(n), '_'] + description + ".html"
  {
  }

  /** The name the extraction stage reads is the name of the first save of `current_page`. */
  lemma FirstCurrentPageName()
    ensures PageName(1, "current_page") == "01_current_page.html"
  {
    assert Pad2(1) == "01" by {
      assert DigitChar(1) == '1';
    }
  }
}
