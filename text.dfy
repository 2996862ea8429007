/** The few Python string operations the version rewriter relies on:
    `t in s`, `s.split(c)[k]`, `str(n)`, `"%d" % n` and `int(s)`. */
module Text {
  import opened Wrappers

  /** Python's `t in s` on strings: `t` occurs in `s` as a contiguous substring. */
  predicate Contains(s: string, t: string)
  {
    exists i | 0 <= i <= |s| :: OccursAt(s, t, i)
  }

  /** `t` occurs in `s` starting at index `i`. */
  predicate OccursAt(s: string, t: string, i: int)
  {
    0 <= i <= |s| - |t| && s[i..i + |t|] == t
  }

  /** The index of the first `c` in `s`, or `|s|` when there is none. */
  function Find(s: string, c: char): (i: nat)
    ensures i <= |s|
    ensures i < |s| ==> s[i] == c
    ensures forall j :: 0 <= j < i ==> s[j] != c
    ensures i == |s| <==> c !in s
  {
    if s == [] then 0
    else if s[0] == c then 0
    else 1 + Find(s[1..], c)
  }

  /** The number of times `c` occurs in `s`. */
  function Occurrences(s: string, c: char): nat
  {
    if s == [] then 0 else (if s[0] == c then 1 else 0) + Occurrences(s[1..], c)
  }

  /** A character occurs in `s` exactly when it is counted at least once. */
  lemma {:induction false} OccurrencesPositive(s: string, c: char)
    ensures Occurrences(s, c) > 0 <==> c in s
  {
    if s != [] {
      OccurrencesPositive(s[1..], c);
      assert s == [s[0]] + s[1..];
    }
  }

  /** Past the first `c` of `s` there is one `c` fewer. */
  lemma {:induction false} OccurrencesAfterFirst(s: string, c: char)
    requires c in s
    ensures Occurrences(s[Find(s, c) + 1..], c) + 1 == Occurrences(s, c)
  {
    if s[0] != c {
      assert c in s[1..] by { assert s == [s[0]] + s[1..]; }
      OccurrencesAfterFirst(s[1..], c);
      assert s[Find(s, c) + 1..] == s[1..][Find(s[1..], c) + 1..];
    }
  }

  /** Python's `s.split(c)[k]` for a one-character separator `c`: the k-th field
      between separators. `None` is the IndexError Python raises when `s` has
      fewer than `k` separators, that is, fewer than `k + 1` fields. */
  function SplitField(s: string, c: char, k: nat): (r: Option<string>)
    ensures r.None? <==> Occurrences(s, c) < k
    ensures r.Some? ==> c !in r.value
    ensures k == 0 ==> r == Some(s[..Find(s, c)])
    decreases k
  {
    var i := Find(s, c);
    if k == 0 then
      assert forall j :: 0 <= j < i ==> s[..i][j] != c;
      Some(s[..i])
    else if i == |s| then
      OccurrencesPositive(s, c);
      None
    else
      OccurrencesAfterFirst(s, c);
      SplitField(s[i + 1..], c, k - 1)
  }

  predicate IsDigit(c: char)
  {
    '0' <= c <= '9'
  }

  predicate AllDigits(s: string)
  {
    forall k :: 0 <= k < |s| ==> IsDigit(s[k])
  }

  /** What Python's `int(s)` accepts in this model: a non-empty run of ASCII digits. */
  predicate IsDecimal(s: string)
  {
    |s| > 0 && AllDigits(s)
  }

  function DigitChar(d: nat): (c: char)
    requires d < 10
    ensures IsDigit(c)
  {
    ('0' as int + d) as char
  }

  /** The value of a digit string read in base ten; leading zeros add nothing. */
  function DigitsValue(s: string): nat
    requires AllDigits(s)
  {
    if s == [] then 0
    else 10 * DigitsValue(s[..|s| - 1]) + (s[|s| - 1] as int - '0' as int)
  }

  function Pow10(k: nat): (p: nat)
    ensures p >= 1
  {
    if k == 0 then 1 else 10 * Pow10(k - 1)
  }

  /** `int(s)` restricted to plain digit strings; `None` is Python's ValueError. */
  function ParseDecimal(s: string): Option<nat>
  {
    if IsDecimal(s) then Some(DigitsValue(s)) else None
  }

  /** Python's `str(n)` for a non-negative integer: the shortest decimal spelling,
      which `int()` reads back as `n`. */
  function NatToString(n: nat): (s: string)
    ensures IsDecimal(s)
    ensures ParseDecimal(s) == Some(n)
    ensures s[0] == '0' ==> n == 0 && s == "0"
    decreases n
  {
    if n < 10 then
      var s := [DigitChar(n)];
      assert s[..0] == [];
      assert s[0] as int - '0' as int == n;
      assert DigitsValue(s) == 10 * DigitsValue(s[..0]) + (s[0] as int - '0' as int);
      assert IsDecimal(s);
      s
    else
      var s := NatToString(n / 10) + [DigitChar(n % 10)];
      assert s[..|s| - 1] == NatToString(n / 10);
      AllDigitsAppend(NatToString(n / 10), [DigitChar(n % 10)]);
      assert DigitsValue(s) == 10 * (n / 10) + n % 10;
      s
  }

  /** Python's `str(i)` and `"%d" % i` for any integer. */
  function IntToString(i: int): (s: string)
    ensures i >= 0 ==> s == NatToString(i)
    ensures i < 0 ==> |s| > 1 && s[0] == '-' && s[1..] == NatToString(-i) && ParseDecimal(s[1..]) == Some(-i)
    ensures '#' !in s && '(' !in s && ')' !in s
  {
    if i < 0 then "-" + NatToString(-i) else NatToString(i)
  }

  lemma AllDigitsAppend(a: string, b: string)
    requires AllDigits(a) && AllDigits(b)
    ensures AllDigits(a + b)
  {
    var ab := a + b;
    forall k | 0 <= k < |ab| ensures IsDigit(ab[k]) {
      if k >= |a| { assert ab[k] == b[k - |a|]; }
    }
  }

  /** Reading the digits of `a + b` is reading `a`, shifting it by `|b|` places,
      and adding the value of `b`. */
  lemma {:induction false} DigitsValueAppend(a: string, b: string)
    requires AllDigits(a) && AllDigits(b)
    ensures AllDigits(a + b)
    ensures DigitsValue(a + b) == DigitsValue(a) * Pow10(|b|) + DigitsValue(b)
    decreases |b|
  {
    AllDigitsAppend(a, b);
    if b == [] {
      assert a + b == a;
    } else {
      var b' := b[..|b| - 1];
      assert (a + b)[..|a + b| - 1] == a + b';
      DigitsValueAppend(a, b');
      ShiftOneDigit(DigitsValue(a), Pow10(|b'|), DigitsValue(b'), b[|b| - 1] as int - '0' as int);
    }
  }

  lemma ShiftOneDigit(x: int, p: int, y: int, d: int)
    ensures 10 * (x * p + y) + d == x * (10 * p) + (10 * y + d)
  {
  }

  /** A decimal spelling of `n < 10^k` needs at most `k` digits. */
  lemma {:induction false} NatToStringLength(n: nat, k: nat)
    requires 1 <= k && n < Pow10(k)
    ensures |NatToString(n)| <= k
    decreases k
  {
    if n >= 10 {
      assert k >= 2;
      assert n / 10 < Pow10(k - 1);
      NatToStringLength(n / 10, k - 1);
    }
  }
}
