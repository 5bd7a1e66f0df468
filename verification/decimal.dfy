/**
 * Decimal text and 32-bit integers, as Java's `Integer.parseInt(String)` and
 * `Integer.toString(int)` treat them. Only ASCII digits are modelled.
 */
module Decimal {
  import opened Wrappers

  const INT_MIN: int := -0x8000_0000
  const INT_MAX: int := 0x7fff_ffff

  predicate IsDigit(c: char) {
    '0' <= c <= '9'
  }

  predicate AllDigits(s: string) {
    forall i :: 0 <= i < |s| ==> IsDigit(s[i])
  }

  function DigitValue(c: char): nat
    requires IsDigit(c)
  {
    c as int - '0' as int
  }

  function DigitChar(d: nat): (c: char)
    requires d < 10
    ensures IsDigit(c) && DigitValue(c) == d
  {
    ('0' as int + d) as char
  }

  /** The value of a run of digits, most significant first (leading zeros allowed). */
  function DigitsValue(ds: string): nat
    requires AllDigits(ds)
    decreases |ds|
  {
    if ds == [] then 0 else DigitsValue(ds[..|ds| - 1]) * 10 + DigitValue(ds[|ds| - 1])
  }

  /**
   * `Integer.parseInt(s)`: an optional '+' or '-' followed by at least one digit,
   * whose value fits in 32 bits. None stands for the NumberFormatException that
   * Java throws for every other string.
   */
  function ParseInt(s: string): (r: Option<int>)
    ensures r.Some? ==> INT_MIN <= r.value <= INT_MAX
    ensures s == [] || s == "+" || s == "-" ==> r.None?
  {
    if s == [] then None
    else
      var start := if s[0] == '-' || s[0] == '+' then 1 else 0;
      var ds := s[start..];
      if ds == [] || !AllDigits(ds) then None
      else
        var v: int := if s[0] == '-' then -(DigitsValue(ds) as int) else DigitsValue(ds);
        if INT_MIN <= v <= INT_MAX then Some(v) else None
  }

  /**
   * What `Integer.parseInt` accepts: a '+', a '-' or a digit first, digits
   * after it, and at least one digit. Every other string raises
   * NumberFormatException.
   */
  lemma ParseIntAccepts(s: string)
    requires ParseInt(s).Some?
    ensures |s| >= 1 && (s[0] == '+' || s[0] == '-' || IsDigit(s[0]))
    ensures exists i :: 0 <= i < |s| && IsDigit(s[i])
    ensures forall i :: 1 <= i < |s| ==> IsDigit(s[i])
  {
    var start := if s[0] == '-' || s[0] == '+' then 1 else 0;
    var ds := s[start..];
    assert IsDigit(ds[0]) && ds[0] == s[start];
    assert forall i :: start <= i < |s| ==> s[i] == ds[i - start];
  }

  /**
   * The result of `Integer.parseInt` on every signed or unsigned run of
   * digits: its value when that fits in 32 bits, and NumberFormatException
   * (None) when it overflows, as for "2147483648" or "-2147483649".
   */
  lemma ParseIntValue(ds: string)
    requires ds != [] && AllDigits(ds)
    ensures ParseInt(ds) == if DigitsValue(ds) <= INT_MAX then Some(DigitsValue(ds) as int) else None
    ensures ParseInt("+" + ds) == ParseInt(ds)
    ensures ParseInt("-" + ds) == if DigitsValue(ds) <= -INT_MIN then Some(-(DigitsValue(ds) as int)) else None
  {
    assert ("+" + ds)[1..] == ds;
    assert ("-" + ds)[1..] == ds;
    assert ds[0..] == ds;
  }

  /** A leading zero does not change the value of a run of digits. */
  lemma {:induction false} LeadingZero(ds: string)
    requires AllDigits(ds)
    ensures AllDigits("0" + ds) && DigitsValue("0" + ds) == DigitsValue(ds)
    decreases |ds|
  {
    var z := "0" + ds;
    if ds != [] {
      LeadingZero(ds[..|ds| - 1]);
      assert z[..|z| - 1] == "0" + ds[..|ds| - 1];
    }
  }

  /**
   * `Integer.parseInt` is lenient: an explicit '+' and leading zeros, after a
   * '-' too, leave the value unchanged, so one number has many accepted spellings.
   */
  lemma {:induction false} ParseIntLenient(ds: string)
    requires ds != [] && AllDigits(ds)
    ensures ParseInt("+" + ds) == ParseInt(ds)
    ensures ParseInt("0" + ds) == ParseInt(ds)
    ensures ParseInt("-0" + ds) == ParseInt("-" + ds)
  {
    assert ("-0" + ds)[1..] == "0" + ds;
    assert ("-" + ds)[1..] == ds;
    assert ("+" + ds)[1..] == ds;
    assert ds[0..] == ds;
    LeadingZero(ds);
    var z := "0" + ds;
    assert z[0..] == z;
  }

  /** Concrete spellings: "+200" and "0200" are 200, and "-0" is 0. */
  lemma ParseIntExamples()
    ensures ParseInt("200") == Some(200)
    ensures ParseInt("+200") == Some(200)
    ensures ParseInt("0200") == Some(200)
    ensures ParseInt("-0") == Some(0)
  {
    assert DigitsValue("200") == 200 by {
      assert "200"[..2] == "20" && "20"[..1] == "2" && "2"[..0] == [];
    }
    ParseIntValue("200");
    ParseIntLenient("200");
    assert "0" + "200" == "0200" && "+" + "200" == "+200";
    assert DigitsValue("0") == 0 by { assert "0"[..0] == []; }
    ParseIntValue("0");
    assert "-" + "0" == "-0";
  }

  /** The shortest decimal text of a natural number (no sign, no leading zeros). */
  function NatToDecimal(n: nat): (s: string)
    ensures |s| >= 1 && AllDigits(s)
    decreases n
  {
    if n < 10 then [DigitChar(n)] else NatToDecimal(n / 10) + [DigitChar(n % 10)]
  }

  /** `Integer.toString(n)`: a '-' before the digits of a negative number. */
  function ToDecimal(n: int): string {
    if n < 0 then "-" + NatToDecimal(-n) else NatToDecimal(n)
  }

  lemma {:induction false} NatToDecimalValue(n: nat)
    ensures DigitsValue(NatToDecimal(n)) == n
    decreases n
  {
    var s := NatToDecimal(n);
    if n >= 10 {
      NatToDecimalValue(n / 10);
      assert s[..|s| - 1] == NatToDecimal(n / 10);
    }
  }

  /** Parsing the text `Integer.toString` produces gives back the number, for every 32-bit value. */
  lemma ParseToDecimal(n: int)
    requires INT_MIN <= n <= INT_MAX
    ensures ParseInt(ToDecimal(n)) == Some(n)
  {
    var s := ToDecimal(n);
    if n < 0 {
      NatToDecimalValue(-n);
      assert s[1..] == NatToDecimal(-n);
    } else {
      NatToDecimalValue(n);
      var d := NatToDecimal(n);
      assert IsDigit(d[0]);
      assert d[0..] == d;
    }
  }

  /**
   * A natural number lies in [200, 300) exactly when its decimal text has three
   * digits and the first is '2': the numeric test is the "2xx" status class.
   */
  lemma TwoHundredsAreTwoXX(n: nat)
    ensures 200 <= n < 300 <==> |NatToDecimal(n)| == 3 && NatToDecimal(n)[0] == '2'
  {
    var s := NatToDecimal(n);
    if n < 10 {
      assert |s| == 1;
    } else if n < 100 {
      assert s == NatToDecimal(n / 10) + [DigitChar(n % 10)];
      assert |s| == 2;
    } else if n < 1000 {
      assert NatToDecimal(n / 10) == [DigitChar(n / 100)] + [DigitChar(n / 10 % 10)] by {
        assert n / 10 / 10 == n / 100;
      }
      assert s == NatToDecimal(n / 10) + [DigitChar(n % 10)];
      assert s[0] == DigitChar(n / 100);
      assert |s| == 3;
    } else {
      assert n / 10 / 10 == n / 100;
      assert NatToDecimal(n / 100) == NatToDecimal(n / 100 / 10) + [DigitChar(n / 100 % 10)];
      assert NatToDecimal(n / 10) == NatToDecimal(n / 100) + [DigitChar(n / 10 % 10)];
      assert |s| >= 4;
    }
  }
}
