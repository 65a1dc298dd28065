/** `boost::lexical_cast<int>` on a string, as the cut filters use it to
    decide whether a selector is an object index: an optional sign followed
    by at least one decimal digit, nothing else (no blanks), and a value that
    fits a 32-bit `int`. Any other string makes the cast throw
    `bad_lexical_cast`, modelled as `None`. */
module LexicalCast {
  import opened Wrappers

  const IntMin: int := -0x8000_0000
  const IntMax: int := 0x7FFF_FFFF

  predicate IsDigit(c: char) {
    '0' <= c <= '9'
  }

  predicate AllDigits(s: string) {
    forall i :: 0 <= i < |s| ==> IsDigit(s[i])
  }

  function DigitValue(c: char): nat
    requires IsDigit(c)
  {
    (c as int) - ('0' as int)
  }

  /** The value of a string of decimal digits, most significant first. */
  function DigitsValue(ds: string): nat
    requires AllDigits(ds)
  {
    if |ds| == 0 then 0
    else DigitsValue(ds[..|ds| - 1]) * 10 + DigitValue(ds[|ds| - 1])
  }

  /** The digits after an optional leading sign, and whether the sign was '-'. */
  function SplitSign(s: string): (r: (bool, string))
    ensures |r.1| <= |s|
  {
    if |s| > 0 && s[0] == '-' then (true, s[1..])
    else if |s| > 0 && s[0] == '+' then (false, s[1..])
    else (false, s)
  }

  /** Whether the cast succeeds: a sign-prefixed non-empty digit string in range. */
  predicate IsIntLiteral(s: string) {
    var (negative, body) := SplitSign(s);
    && |body| > 0
    && AllDigits(body)
    && IntMin <= (if negative then -(DigitsValue(body) as int) else DigitsValue(body)) <= IntMax
  }

  function ParseInt(s: string): (r: Option<int>)
    ensures r.Some? <==> IsIntLiteral(s)
    ensures r.Some? ==> IntMin <= r.value <= IntMax
    ensures r.Some? ==> 0 < |s| && (IsDigit(s[0]) || s[0] == '-' || s[0] == '+')
  {
    var (negative, body) := SplitSign(s);
    if |body| == 0 || !AllDigits(body) then None
    else
      var v := if negative then -(DigitsValue(body) as int) else DigitsValue(body);
      if IntMin <= v <= IntMax then Some(v) else None
  }

  function DigitChar(d: nat): (c: char)
    requires d < 10
    ensures IsDigit(c) && DigitValue(c) == d
  {
    ('0' as int + d) as char
  }

  /** Canonical decimal spelling of a natural number (no leading zeros). */
  function NatToDigits(n: nat): (ds: string)
    ensures |ds| > 0 && AllDigits(ds)
    decreases n
  {
    if n < 10 then [DigitChar(n)]
    else NatToDigits(n / 10) + [DigitChar(n % 10)]
  }

  /** Canonical decimal spelling of an integer, with '-' for negatives. */
  function IntToString(n: int): string {
    if n < 0 then "-" + NatToDigits(-n) else NatToDigits(n)
  }

  lemma {:induction false} DigitsValueOfNatToDigits(n: nat)
    ensures DigitsValue(NatToDigits(n)) == n
    decreases n
  {
    var ds := NatToDigits(n);
    if n >= 10 {
      DigitsValueOfNatToDigits(n / 10);
      assert ds[..|ds| - 1] == NatToDigits(n / 10);
    }
  }

  /** Every integer a 32-bit `int` can hold, spelled canonically, is read back
      as itself: an index selector written in decimal addresses that index. */
  lemma ParseIntOfIntToString(n: int)
    requires IntMin <= n <= IntMax
    ensures ParseInt(IntToString(n)) == Some(n)
  {
    var s := IntToString(n);
    if n < 0 {
      DigitsValueOfNatToDigits(-n);
      assert s[0] == '-';
      assert s[1..] == NatToDigits(-n);
    } else {
      DigitsValueOfNatToDigits(n);
      var ds := NatToDigits(n);
      assert IsDigit(ds[0]);
    }
  }

  /** The literal "default" and a regular-expression selector are not integers;
      "3" is read as the integer 3 and never as a pattern. */
  lemma DispatchExamples()
    ensures ParseInt("default") == None
    ensures ParseInt("HLT_Mu.*") == None
    ensures ParseInt("3") == Some(3)
    ensures ParseInt("-1") == Some(-1)
    ensures ParseInt("") == None && ParseInt("-") == None && ParseInt(" 3") == None
  {
    assert DigitsValue("3") == 3 by {
      assert "3"[..0] == "";
    }
    assert DigitsValue("1") == 1 by {
      assert "1"[..0] == "";
    }
    assert SplitSign("-1").1 == "1";
    assert !IsDigit(" 3"[0]);
  }

  lemma DigitsValueSnoc(ds: string, c: char)
    requires AllDigits(ds) && IsDigit(c)
    ensures AllDigits(ds + [c]) && DigitsValue(ds + [c]) == DigitsValue(ds) * 10 + DigitValue(c)
  {
    assert (ds + [c])[..|ds|] == ds;
  }

  lemma LeadingDigits()
    ensures AllDigits("21474") && DigitsValue("21474") == 21474
  {
    DigitsValueSnoc("", '2');
    assert "" + ['2'] == "2";
    DigitsValueSnoc("2", '1');
    assert "2" + ['1'] == "21";
    DigitsValueSnoc("21", '4');
    assert "21" + ['4'] == "214";
    DigitsValueSnoc("214", '7');
    assert "214" + ['7'] == "2147";
    DigitsValueSnoc("2147", '4');
    assert "2147" + ['4'] == "21474";
  }

  /** One past the largest `int` does not fit, so the cast fails. */
  lemma OverflowIsNotAnIndex()
    ensures ParseInt("2147483648") == None
  {
    LeadingDigits();
    DigitsValueSnoc("21474", '8');
    assert "21474" + ['8'] == "214748";
    DigitsValueSnoc("214748", '3');
    assert "214748" + ['3'] == "2147483";
    DigitsValueSnoc("2147483", '6');
    assert "2147483" + ['6'] == "21474836";
    DigitsValueSnoc("21474836", '4');
    assert "21474836" + ['4'] == "214748364";
    DigitsValueSnoc("214748364", '8');
    assert "214748364" + ['8'] == "2147483648";
  }
}
