/**
 The few pieces of the Java platform the versioning core leans on: the 32-bit `int`
 type, `null`-or-value results, and `Integer.parseInt` applied to a string of ASCII
 decimal digits (the only kind of string the core ever hands it).
 */
module JavaLang {

  const INT_MIN: int := -0x8000_0000
  const INT_MAX: int := 0x7fff_ffff

  /** Java's `int`. */
  type Int32 = x: int | INT_MIN <= x <= INT_MAX

  datatype Option<+T> = None | Some(value: T)

  /** `Integer.parseInt` either yields an `int` or throws `NumberFormatException`. */
  datatype ParseResult = Parsed(value: Int32) | NumberFormatError

  /** An ASCII decimal digit: what `\d` matches in a Java regex without UNICODE_CHARACTER_CLASS. */
  predicate IsDigit(c: char) {
    '0' <= c <= '9'
  }

  predicate AllDigits(s: string) {
    forall i :: 0 <= i < |s| ==> IsDigit(s[i])
  }

  function DigitValue(c: char): (d: nat)
    requires IsDigit(c)
    ensures d <= 9
  {
    c as int - '0' as int
  }

  /** The number a digit string denotes in base 10, most significant digit first. */
  function DecimalValue(s: string): nat
    requires AllDigits(s)
  {
    if |s| == 0 then 0 else DecimalValue(s[..|s| - 1]) * 10 + DigitValue(s[|s| - 1])
  }

  /**
   `Integer.parseInt(s)` for a non-empty string of ASCII digits: the digits are read as a
   decimal number; a value beyond `Integer.MAX_VALUE` throws instead of wrapping.
   */
  function ParseInt(s: string): (r: ParseResult)
    requires |s| > 0 && AllDigits(s)
    ensures r.Parsed? <==> DecimalValue(s) <= INT_MAX
    ensures r.Parsed? ==> r.value == DecimalValue(s) && 0 <= r.value
  {
    var n := DecimalValue(s);
    if n <= INT_MAX then Parsed(n) else NumberFormatError
  }

  /** Leading zeros do not change the value read: `"007"` is read as 7. */
  lemma {:induction false} LeadingZeroIgnored(s: string)
    requires AllDigits(s)
    ensures AllDigits("0" + s) && DecimalValue("0" + s) == DecimalValue(s)
  {
    var z := "0" + s;
    assert AllDigits(z) by {
      forall i | 0 <= i < |z| ensures IsDigit(z[i]) {
        if i > 0 { assert z[i] == s[i - 1]; }
      }
    }
    if |s| > 0 {
      var init := s[..|s| - 1];
      assert z[..|z| - 1] == "0" + init;
      assert z[|z| - 1] == s[|s| - 1];
      LeadingZeroIgnored(init);
    }
  }

  /** Any number of leading zeros is ignored. */
  lemma {:induction false} LeadingZerosIgnored(zeros: nat, s: string)
    requires AllDigits(s)
    ensures AllDigits(Zeros(zeros) + s) && DecimalValue(Zeros(zeros) + s) == DecimalValue(s)
    decreases zeros
  {
    if zeros == 0 {
      assert Zeros(zeros) + s == s;
    } else {
      LeadingZerosIgnored(zeros - 1, s);
      assert Zeros(zeros) + s == "0" + (Zeros(zeros - 1) + s);
      LeadingZeroIgnored(Zeros(zeros - 1) + s);
    }
  }

  function Zeros(n: nat): (z: string)
    ensures |z| == n && forall i :: 0 <= i < n ==> z[i] == '0'
  {
    if n == 0 then "" else "0" + Zeros(n - 1)
  }

  /** Appending a digit multiplies the value so far by ten and adds the digit. */
  lemma AppendDigit(s: string, c: char)
    requires AllDigits(s) && IsDigit(c)
    ensures AllDigits(s + [c]) && DecimalValue(s + [c]) == DecimalValue(s) * 10 + DigitValue(c)
  {
    assert (s + [c])[..|s|] == s;
  }

  /** The digits "2147483647" are the largest that parse; one more overflows. */
  lemma ParseIntBoundary()
    ensures ParseInt("2147483647") == Parsed(INT_MAX)
    ensures ParseInt("2147483648") == NumberFormatError
  {
    AppendDigit("2", '1'); assert "2" + ['1'] == "21";
    AppendDigit("21", '4'); assert "21" + ['4'] == "214";
    AppendDigit("214", '7'); assert "214" + ['7'] == "2147";
    AppendDigit("2147", '4'); assert "2147" + ['4'] == "21474";
    AppendDigit("21474", '8'); assert "21474" + ['8'] == "214748";
    AppendDigit("214748", '3'); assert "214748" + ['3'] == "2147483";
    AppendDigit("2147483", '6'); assert "2147483" + ['6'] == "21474836";
    AppendDigit("21474836", '4'); assert "21474836" + ['4'] == "214748364";
    AppendDigit("214748364", '7'); assert "214748364" + ['7'] == "2147483647";
    AppendDigit("214748364", '8'); assert "214748364" + ['8'] == "2147483648";
  }
}
