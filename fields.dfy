/** Strings cut into consecutive fields, and number fields read back as
    naturals; used for the layout of generated patient IDs. */
module Fields {
  import opened JsText

  /** `s` is a non-empty string of decimal digits whose value is `n`. */
  ghost predicate Reads(s: string, n: nat) {
    s != [] && AllDigits(s) && DecimalValue(s) == n
  }

  /** An ID cut into its six fields: the text `p` of the patient, a number
      field of `countLen` digits that is the decimal text of `count`, the text
      `d` of the doctor, two-digit day and month fields (no padding zero from
      10 on) and the decimal text of `year`, running to the end. */
  ghost predicate IdFields(id: string, p: string, count: nat, countLen: nat, d: string,
                           day: nat, month: nat, year: nat)
  {
    var o := |p| + countLen + |d|;
    && |id| > o + 4
    && id[..|p|] == p
    && Reads(id[|p|..|p| + countLen], count)
    && id[|p|..|p| + countLen] == NatToString(count)
    && id[|p| + countLen..o] == d
    && Reads(id[o..o + 2], day)
    && Reads(id[o + 2..o + 4], month)
    && Reads(id[o + 4..], year)
    && id[o + 4..] == NatToString(year)
    && (day >= 10 ==> id[o] != '0')
    && (month >= 10 ==> id[o + 2] != '0')
  }

  /** Six fields concatenated, the count and the year in decimal, the date
      parts two characters long, are read back field by field. */
  lemma ConcatFields(a: string, b: string, c: string, d: string, m: string, y: string,
                     count: nat, day: nat, month: nat, year: nat)
    requires Reads(b, count) && Reads(d, day) && Reads(m, month) && Reads(y, year)
    requires b == NatToString(count) && y == NatToString(year)
    requires |d| == 2 && |m| == 2
    requires day >= 10 ==> d[0] != '0'
    requires month >= 10 ==> m[0] != '0'
    ensures IdFields(a + b + c + d + m + y, a, count, |b|, c, day, month, year)
  {
    SixSlices(a, b, c, d, m, y);
    var id := a + b + c + d + m + y;
    var o := |a| + |b| + |c|;
    assert id[o] == id[o..o + 2][0] == d[0];
    assert id[o + 2] == id[o + 2..o + 4][0] == m[0];
  }

  /** Where each of six concatenated strings sits in the result. */
  lemma SixSlices(a: string, b: string, c: string, d: string, m: string, y: string)
    ensures var s := a + b + c + d + m + y;
      var o := |a| + |b| + |c|;
      && |s| == o + |d| + |m| + |y|
      && s[..|a|] == a && s[|a|..|a| + |b|] == b && s[|a| + |b|..o] == c
      && s[o..o + |d|] == d && s[o + |d|..o + |d| + |m|] == m && s[o + |d| + |m|..] == y
  {
    var s := a + b + c + d + m + y;
    var o := |a| + |b| + |c|;
    assert s == (a + b + c) + (d + m + y);
    assert s[..o] == a + b + c && s[o..] == d + m + y;
    assert (a + b + c)[..|a|] == a && (a + b + c)[|a|..] == b + c;
    assert (d + m + y)[..|d|] == d && (d + m + y)[|d|..] == m + y;
  }
}
