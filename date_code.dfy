/** The date code of updateFileName.py: the last two digits of the year followed by
    the day of the year, left-padded with "0" to three characters ("24090" for
    day 90 of 2024). */
module DateCode {
  import opened Text

  /** What the script reads from `datetime.now()`: the calendar year and the day
      of the year (`tm_yday`, 1 for January 1st). */
  datatype Date = Date(year: nat, dayOfYear: nat)

  function Zeros(k: nat): (z: string)
    ensures |z| == k
    ensures forall i :: 0 <= i < k ==> z[i] == '0'
  {
    if k == 0 then "" else "0" + Zeros(k - 1)
  }

  /** `s` preceded by as many "0" as bring it to `width` characters. */
  function ZeroPad(s: string, width: nat): string
  {
    if |s| < width then Zeros(width - |s|) + s else s
  }

  /** The padding loop of the script: prepend "0" while the day string is shorter
      than three characters. */
  method PadDay(s: string) returns (r: string)
    ensures |r| == if |s| < 3 then 3 else |s|
    ensures r[|r| - |s|..] == s
    ensures forall i :: 0 <= i < |r| - |s| ==> r[i] == '0'
    ensures r == ZeroPad(s, 3)
  {
    r := s;
    while |r| < 3
      invariant |s| <= |r| && (|s| < 3 ==> |r| <= 3) && (|s| >= 3 ==> r == s)
      invariant r == Zeros(|r| - |s|) + s
      decreases 3 - |r|
    {
      r := "0" + r;
    }
  }

  /** Python's `str(year)[2:]`: the year's decimal spelling without its first two
      characters (empty when it has at most two). */
  function YearSuffix(year: nat): string
  {
    var s := NatToString(year);
    if |s| <= 2 then "" else s[2..]
  }

  /** The code written between the parentheses of the FW_VERSION_VERSION line. */
  function Code(d: Date): string
  {
    YearSuffix(d.year) + ZeroPad(NatToString(d.dayOfYear), 3)
  }

  /** Leading zeros add nothing to a digit string's value. */
  lemma {:induction false} ZerosValue(k: nat)
    ensures AllDigits(Zeros(k)) && DigitsValue(Zeros(k)) == 0
  {
    if k > 0 {
      var z := Zeros(k);
      assert z[..k - 1] == Zeros(k - 1);
      ZerosValue(k - 1);
    }
  }

  /** Padding a digit string with zeros keeps its digits and its value. */
  lemma ZeroPadValue(s: string, width: nat)
    requires AllDigits(s)
    ensures |ZeroPad(s, width)| == if |s| < width then width else |s|
    ensures AllDigits(ZeroPad(s, width))
    ensures DigitsValue(ZeroPad(s, width)) == DigitsValue(s)
  {
    if |s| < width {
      ZerosValue(width - |s|);
      DigitsValueAppend(Zeros(width - |s|), s);
    }
  }

  /** The date code consists of digits only, at least three, whatever the date. */
  lemma CodeIsDigits(d: Date)
    ensures AllDigits(Code(d)) && |Code(d)| >= 3
  {
    var s := NatToString(d.year);
    assert AllDigits(YearSuffix(d.year)) by {
      if |s| > 2 {
        forall k | 0 <= k < |s| - 2 ensures IsDigit(s[2..][k]) {
          assert s[2..][k] == s[k + 2];
        }
      }
    }
    ZeroPadValue(NatToString(d.dayOfYear), 3);
    AllDigitsAppend(YearSuffix(d.year), ZeroPad(NatToString(d.dayOfYear), 3));
  }

  /** For a four-digit year, `str(year)[2:]` is the two digits of `year % 100`. */
  lemma YearSuffixValue(year: nat)
    requires 1000 <= year <= 9999
    ensures |YearSuffix(year)| == 2 && AllDigits(YearSuffix(year))
    ensures DigitsValue(YearSuffix(year)) == year % 100
  {
    var hi := NatToString(year / 100);
    var lo := [DigitChar(year / 10 % 10), DigitChar(year % 10)];
    assert hi == NatToString(year / 1000) + [DigitChar(year / 100 % 10)];
    assert (year / 10) / 10 == year / 100;
    assert NatToString(year / 10) == hi + [DigitChar(year / 10 % 10)];
    assert NatToString(year) == hi + lo;
    assert |hi| == 2;
    assert YearSuffix(year) == lo;
    assert lo[..1] == [lo[0]] && [lo[0]][..0] == [];
    assert DigitsValue(lo) == 10 * (year / 10 % 10) + year % 10;
  }

  /** For a four-digit year and a day of the year, the date code is five digits
      whose value is the year's last two digits times 1000 plus the day. */
  lemma CodeShape(d: Date)
    requires 1000 <= d.year <= 9999 && 1 <= d.dayOfYear <= 366
    ensures |Code(d)| == 5 && IsDecimal(Code(d))
    ensures DigitsValue(Code(d)) == (d.year % 100) * 1000 + d.dayOfYear
    ensures DigitsValue(Code(d)[2..]) == d.dayOfYear
  {
    var day := NatToString(d.dayOfYear);
    NatToStringLength(d.dayOfYear, 3);
    ZeroPadValue(day, 3);
    YearSuffixValue(d.year);
    DigitsValueAppend(YearSuffix(d.year), ZeroPad(day, 3));
    assert Code(d)[2..] == ZeroPad(day, 3);
  }
}
