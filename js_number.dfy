/** JavaScript numbers as far as the system touches them: `parseInt` on the
    patient's age, rendering a number inside a template literal, and number
    truthiness.  Resources are modelled after JSON serialisation, where NaN and
    the infinities become `null`, so a `Number` here is always finite. */
module JsNumber {
  import opened Wrappers
  import opened JsText

  /** A finite JavaScript number, known by the text `String(n)` gives for it. */
  datatype Number = Number(text: string) {
    /** The only falsy finite numbers are 0 and -0, and both render as "0". */
    predicate IsTruthy() {
      text != "0"
    }
  }

  /** `String(i)` for an integer. */
  function IntToString(i: int): string {
    if i < 0 then "-" + NatToString(-i) else NatToString(i)
  }

  function FromInt(i: int): Number {
    Number(IntToString(i))
  }

  /** An integer-valued number is truthy exactly when it is not zero. */
  lemma FromIntTruthy(i: int)
    ensures FromInt(i).IsTruthy() <==> i != 0
  {
    if i == 0 {
      assert NatToString(0) == [DigitChar(0)];
    } else if i < 0 {
      assert |IntToString(i)| >= 2;
    } else {
      assert IntToString(i)[0] != '0';
    }
  }

  // ------------------------------------------------------------ parseInt

  predicate IsHexDigit(c: char) {
    IsDigit(c) || 'a' <= c <= 'f' || 'A' <= c <= 'F'
  }

  function HexDigitValue(c: char): (d: nat)
    requires IsHexDigit(c)
    ensures d < 16
  {
    if IsDigit(c) then DigitValue(c)
    else if 'a' <= c <= 'f' then c as int - 'a' as int + 10
    else c as int - 'A' as int + 10
  }

  predicate IsRadixDigit(c: char, hex: bool) {
    if hex then IsHexDigit(c) else IsDigit(c)
  }

  /** The length of the longest prefix of `s` made of digits of the radix. */
  function DigitRun(s: string, hex: bool): (k: nat)
    ensures k <= |s|
    ensures forall i :: 0 <= i < k ==> IsRadixDigit(s[i], hex)
    ensures k < |s| ==> !IsRadixDigit(s[k], hex)
  {
    if s != [] && IsRadixDigit(s[0], hex) then 1 + DigitRun(s[1..], hex) else 0
  }

  /** The value of a string of hexadecimal digits, most significant first. */
  function HexValue(s: string): nat
    requires forall i :: 0 <= i < |s| ==> IsHexDigit(s[i])
  {
    if s == [] then 0 else 16 * HexValue(s[..|s| - 1]) + HexDigitValue(s[|s| - 1])
  }

  /** `parseInt(s)` with no radix argument: skip leading whitespace, read an
      optional sign, read a `0x`/`0X` prefix as radix 16, then read the longest
      run of digits.  `None` is NaN, which JSON serialises as `null`. */
  function ParseInt(s: string): (r: Option<int>)
    ensures IsBlank(s) ==> r.None?
    ensures LeadingBlank(s) < |s| ==>
      var c := s[LeadingBlank(s)];
      !IsDigit(c) && c != '-' && c != '+' ==> r.None?
    ensures r.Some? && r.value < 0 ==> LeadingBlank(s) < |s| && s[LeadingBlank(s)] == '-'
    ensures s != [] && AllDigits(s) ==> r == Some(DecimalValue(s))
  {
    var t := s[LeadingBlank(s)..];
    var negative := t != [] && t[0] == '-';
    var u := if t != [] && (t[0] == '-' || t[0] == '+') then t[1..] else t;
    var hex := |u| >= 2 && u[0] == '0' && (u[1] == 'x' || u[1] == 'X');
    var v := if hex then u[2..] else u;
    var k := DigitRun(v, hex);
    assert s != [] && AllDigits(s) ==> !negative && v == s && k == |s| && v[..k] == s by {
      if s != [] && AllDigits(s) {
        assert !IsWhitespace(s[0]);
        assert t == s;
        assert s[..|s|] == s;
      }
    }
    if k == 0 then None
    else
      var m := if hex then HexValue(v[..k]) else DecimalValue(v[..k]);
      Some(if negative then -m else m)
  }

  /** `parseInt` reads back every integer's own rendering. */
  lemma ParseIntRoundTrip(i: int)
    ensures ParseInt(IntToString(i)) == Some(i)
  {
    var n: nat := if i < 0 then -i else i;
    var d := NatToString(n);
    var s := IntToString(i);
    assert LeadingBlank(s) == 0 by {
      assert !IsWhitespace(s[0]);
    }
    assert s[0..] == s;
    var u := if i < 0 then s[1..] else s;
    assert u == d;
    assert !(|d| >= 2 && d[0] == '0');
    assert DigitRun(d, false) == |d| by {
      assert forall j :: 0 <= j < |d| ==> IsRadixDigit(d[j], false);
    }
    assert d[..|d|] == d;
    DecimalRoundTrip(n);
  }
}
