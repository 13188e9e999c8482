/**
 * Document numbers taken from the greatest number issued so far, compared as strings. Only the part
 * after the year's prefix is kept here; the prefix is the same for all.
 */
module DocumentNumbers {
  import opened Basics

  // ---------------------------------------------------------------- digit strings

  predicate IsDigit(c: char) { '0' <= c <= '9' }

  predicate AllDigits(s: string) { forall i :: 0 <= i < |s| ==> IsDigit(s[i]) }

  function DigitChar(d: nat): (c: char)
    requires d < 10
    ensures IsDigit(c)
  {
    (d + '0' as int) as char
  }

  function DigitValue(c: char): (d: nat)
    requires IsDigit(c)
    ensures d < 10
  {
    c as int - '0' as int
  }

  function Pow10(k: nat): (p: nat)
    ensures p > 0
  {
    if k == 0 then 1 else 10 * Pow10(k - 1)
  }

  function Value(s: string): nat
    requires AllDigits(s)
  {
    if s == "" then 0 else DigitValue(s[0]) * Pow10(|s| - 1) + Value(s[1..])
  }

  function Digits(n: nat): (s: string)
    ensures AllDigits(s) && |s| > 0
  {
    if n < 10 then [DigitChar(n)] else Digits(n / 10) + [DigitChar(n % 10)]
  }

  function Zeros(k: nat): (s: string)
    ensures |s| == k && AllDigits(s)
  {
    if k == 0 then "" else "0" + Zeros(k - 1)
  }

  /** At least `width` digits, with leading zeros. */
  function Padded(n: nat, width: nat): (s: string)
    ensures AllDigits(s)
  {
    var s := Digits(n);
    if |s| >= width then s else Zeros(width - |s|) + s
  }

  /** Five digits at least, after the sign if there is one. */
  function Format(n: int): string { if n >= 0 then Padded(n, 5) else "-" + Padded(-n, 5) }

  const MAX_INT: nat := 2147483647

  function TryParse(s: string): Option<nat> {
    if s != "" && AllDigits(s) && Value(s) <= MAX_INT then Some(Value(s)) else None
  }

  lemma {:induction false} OneDigitMore(d: nat, p: nat, v: nat)
    requires d <= 9 && v < p
    ensures d * p + v < 10 * p
  {
    assert d * p <= 9 * p;
  }

  lemma {:induction false} ValueBounded(s: string)
    requires AllDigits(s)
    ensures Value(s) < Pow10(|s|)
  {
    if s != "" {
      ValueBounded(s[1..]);
      OneDigitMore(DigitValue(s[0]), Pow10(|s| - 1), Value(s[1..]));
    }
  }

  lemma {:induction false} ValueSnoc(s: string, c: char)
    requires AllDigits(s) && IsDigit(c)
    ensures AllDigits(s + [c]) && Value(s + [c]) == 10 * Value(s) + DigitValue(c)
  {
    if s == "" {
      assert [c][1..] == "" && "" + [c] == [c];
    } else {
      assert (s + [c])[1..] == s[1..] + [c];
      ValueSnoc(s[1..], c);
      assert DigitValue(s[0]) * Pow10(|s|) == 10 * (DigitValue(s[0]) * Pow10(|s| - 1));
    }
  }

  lemma {:induction false} ValueZeros(k: nat, s: string)
    requires AllDigits(s)
    ensures AllDigits(Zeros(k) + s) && Value(Zeros(k) + s) == Value(s)
  {
    if k == 0 {
      assert Zeros(0) + s == s;
    } else {
      assert (Zeros(k) + s)[1..] == Zeros(k - 1) + s;
      ValueZeros(k - 1, s);
    }
  }

  lemma {:induction false} ValueDigits(n: nat)
    ensures Value(Digits(n)) == n
  {
    if n >= 10 {
      ValueDigits(n / 10);
      ValueSnoc(Digits(n / 10), DigitChar(n % 10));
    } else {
      assert [DigitChar(n)][1..] == "";
    }
  }

  /** Reading back what was written gives the number. */
  lemma {:induction false} ParsePadded(n: nat, width: nat)
    ensures Value(Padded(n, width)) == n
    ensures n <= MAX_INT ==> TryParse(Padded(n, width)) == Some(n)
  {
    ValueDigits(n);
    if |Digits(n)| < width { ValueZeros(width - |Digits(n)|, Digits(n)); }
  }

  lemma {:induction false} DigitsWidth(n: nat, k: nat)
    requires k > 0
    ensures |Digits(n)| <= k <==> n < Pow10(k)
  {
    if n >= 10 {
      if k > 1 {
        DigitsWidth(n / 10, k - 1);
        assert n / 10 < Pow10(k - 1) <==> n < 10 * Pow10(k - 1);
      }
    } else {
      PowGrows(k);
    }
  }

  lemma {:induction false} PowGrows(k: nat)
    requires k > 0
    ensures Pow10(k) >= 10
  {
    if k > 1 { PowGrows(k - 1); }
  }

  lemma {:induction false} PaddedWidth(n: nat, width: nat)
    requires width > 0
    ensures |Padded(n, width)| == width <==> n < Pow10(width)
    ensures |Padded(n, width)| >= width
  {
    DigitsWidth(n, width);
  }

  // ---------------------------------------------------------------- string order

  /** Character by character; a proper prefix comes first. */
  predicate StringLess(a: string, b: string) {
    b != "" && (a == "" || a[0] < b[0] || (a[0] == b[0] && StringLess(a[1..], b[1..])))
  }

  function MaxString(s: seq<string>): (m: string)
    requires s != []
    ensures m in s
  {
    if |s| == 1 then s[0]
    else
      var m := MaxString(s[1..]);
      if StringLess(m, s[0]) then s[0] else m
  }

  /** Digit strings of the same length are ordered as their values. */
  lemma {:induction false} SameWidthOrder(a: string, b: string)
    requires AllDigits(a) && AllDigits(b) && |a| == |b|
    ensures StringLess(a, b) <==> Value(a) < Value(b)
    ensures Value(a) == Value(b) ==> a == b
  {
    if a != "" {
      SameWidthOrder(a[1..], b[1..]);
      ValueBounded(a[1..]);
      ValueBounded(b[1..]);
      var p := Pow10(|a| - 1);
      var x, y := DigitValue(a[0]), DigitValue(b[0]);
      if x < y { LeadingDigit(x, y, p); }
      if y < x { LeadingDigit(y, x, p); }
      assert a == [a[0]] + a[1..] && b == [b[0]] + b[1..];
    }
  }

  lemma {:induction false} LeadingDigit(x: nat, y: nat, p: nat)
    requires x < y
    ensures x * p + p <= y * p
  {
    assert (x + 1) * p <= y * p;
  }

  // ---------------------------------------------------------------- issuing

  /** One more, in 32 bits. */
  function Increment(n: nat): int { if n == MAX_INT then 0 - MAX_INT - 1 else n + 1 }

  function NextNumber(issued: seq<string>): int {
    if issued == [] then 1
    else
      match TryParse(MaxString(issued))
      case Some(last) => Increment(last)
      case None => 1
  }

  const LAST_FRESH: nat := 100000

  predicate FiveDigits(s: string) { |s| == 5 && AllDigits(s) }

  lemma {:induction false} MaxOfFiveDigits(issued: seq<string>)
    requires issued != [] && forall i :: 0 <= i < |issued| ==> FiveDigits(issued[i])
    ensures FiveDigits(MaxString(issued))
    ensures forall i :: 0 <= i < |issued| ==> FiveDigits(issued[i]) && Value(issued[i]) <= Value(MaxString(issued))
  {
    if |issued| > 1 {
      var rest := issued[1..];
      forall i | 0 <= i < |rest| ensures FiveDigits(rest[i]) { assert rest[i] == issued[i + 1]; }
      MaxOfFiveDigits(rest);
      SameWidthOrder(MaxString(rest), issued[0]);
      forall i | 0 <= i < |issued| ensures FiveDigits(issued[i]) && Value(issued[i]) <= Value(MaxString(issued)) {
        if i > 0 { assert issued[i] == rest[i - 1]; }
      }
    }
  }

  /** While every number has five digits, whatever was issued before, the next number is new and above them all. */
  lemma {:induction false} FreshAmongFiveDigits(issued: seq<string>)
    requires forall i :: 0 <= i < |issued| ==> FiveDigits(issued[i])
    ensures Format(NextNumber(issued)) !in issued
    ensures forall i :: 0 <= i < |issued| ==> FiveDigits(issued[i]) && Value(issued[i]) < NextNumber(issued)
  {
    if issued != [] {
      MaxOfFiveDigits(issued);
      ValueBounded(MaxString(issued));
      PowersOfTen();
    }
    ParsePadded(NextNumber(issued), 5);
  }

  lemma {:induction false} StringLessStrict(a: string, b: string)
    ensures !StringLess(a, a)
    ensures StringLess(a, b) ==> !StringLess(b, a)
    decreases |a| + |b|
  {
    if a != "" && b != "" {
      StringLessStrict(a[1..], b[1..]);
    } else if a != "" {
      StringLessStrict(a[1..], b);
    }
  }

  lemma {:induction false} MaxIs(issued: seq<string>, m: string)
    requires m in issued && forall i :: 0 <= i < |issued| ==> issued[i] == m || StringLess(issued[i], m)
    ensures MaxString(issued) == m
  {
    if |issued| > 1 {
      var rest := issued[1..];
      assert forall i :: 0 <= i < |rest| ==> rest[i] == issued[i + 1];
      if m in rest {
        MaxIs(rest, m);
        StringLessStrict(issued[0], m);
      } else {
        var r := MaxString(rest);
        var i :| 0 <= i < |rest| && rest[i] == r;
        assert issued[i + 1] == r;
      }
    }
  }

  /** The order on strings: the first difference decides, and a proper prefix comes first. */
  lemma {:induction false} StringLessExactly(a: string, b: string)
    ensures StringLess(a, b) <==>
      exists k: nat :: k < |b| && k <= |a| && a[..k] == b[..k] && (k == |a| || a[k] < b[k])
    decreases |a| + |b|
  {
    if StringLess(a, b) {
      if a == "" || a[0] < b[0] {
        assert a[..0] == b[..0];
      } else {
        StringLessExactly(a[1..], b[1..]);
        var h: nat :| h < |b[1..]| && h <= |a[1..]| && a[1..][..h] == b[1..][..h] && (h == |a[1..]| || a[1..][h] < b[1..][h]);
        assert a[..h + 1] == [a[0]] + a[1..][..h] && b[..h + 1] == [b[0]] + b[1..][..h];
      }
    }
    if k: nat :| k < |b| && k <= |a| && a[..k] == b[..k] && (k == |a| || a[k] < b[k]) {
      if k > 0 {
        assert a[0] == a[..k][0] == b[..k][0] == b[0];
        var h := k - 1;
        assert a[1..][..h] == a[..k][1..] && b[1..][..h] == b[..k][1..];
        StringLessExactly(a[1..], b[1..]);
      }
    }
  }

  /**
   * Whatever was issued before, by whatever rule: if the greatest number `m` is a 32-bit number the next one is that
   * plus one, wrapping around at the end of the range, and otherwise numbering starts again at 1.
   */
  lemma {:induction false} NextAfterGreatest(issued: seq<string>, m: string)
    requires m in issued && forall i :: 0 <= i < |issued| ==> issued[i] == m || StringLess(issued[i], m)
    ensures m != "" && AllDigits(m) && Value(m) < 2147483647 ==> NextNumber(issued) == Value(m) + 1
    ensures m != "" && AllDigits(m) && Value(m) == 2147483647 ==> NextNumber(issued) == -2147483648
    ensures m != "" && AllDigits(m) && Value(m) > 2147483647 ==> NextNumber(issued) == 1
    ensures m == "" || !AllDigits(m) ==> NextNumber(issued) == 1
  {
    MaxIs(issued, m);
  }

  lemma {:induction false} PowersOfTen()
    ensures Pow10(4) == 10000 && Pow10(5) == 100000 && Pow10(6) == 1000000
  {
    assert Pow10(2) == 100 && Pow10(4) == 10000;
  }

  lemma {:induction false} FirstDigit(s: string, d: nat, p: nat)
    requires AllDigits(s) && s != "" && p == Pow10(|s| - 1) && d * p <= Value(s) < (d + 1) * p
    ensures DigitValue(s[0]) == d
  {
    ValueBounded(s[1..]);
    var x := DigitValue(s[0]);
    if x < d { LeadingDigit(x, d, p); }
    if d < x { LeadingDigit(d, x, p); }
  }

  /** The number after 99999 has six digits and sorts below it, because its first digit is 1 and not 9. */
  lemma {:induction false} SixDigitsSortLow()
    ensures StringLess(Format(100000), Format(99999)) && |Format(100000)| == 6
  {
    PowersOfTen();
    ParsePadded(100000, 5);
    ParsePadded(99999, 5);
    PaddedWidth(99999, 5);
    PaddedWidth(100000, 5);
    DigitsWidth(100000, 6);
    FirstDigit(Format(100000), 1, 100000);
    FirstDigit(Format(99999), 9, 10000);
  }

  function AtMost(n: nat, limit: nat): nat { if n <= limit then n else limit }

  /** What the first `n` documents under a prefix are called. */
  function Issued(n: nat): (s: seq<string>)
    ensures |s| == n
  {
    if n == 0 then [] else Issued(n - 1) + [Format(NextNumber(Issued(n - 1)))]
  }

  lemma {:induction false} FiveDigitOrder(i: nat, n: nat)
    requires i < n <= 99999
    ensures FiveDigits(Format(i)) && FiveDigits(Format(n)) && StringLess(Format(i), Format(n))
  {
    PowersOfTen();
    PaddedWidth(i, 5);
    PaddedWidth(n, 5);
    ParsePadded(i, 5);
    ParsePadded(n, 5);
    SameWidthOrder(Format(i), Format(n));
  }

  predicate Counts(issued: seq<string>) {
    forall k :: 0 <= k < |issued| ==> issued[k] == Format(AtMost(k + 1, LAST_FRESH))
  }

  lemma {:induction false} GreatestOf(issued: seq<string>)
    requires issued != [] && Counts(issued)
    ensures MaxString(issued) == Format(AtMost(|issued|, 99999))
  {
    hide Format, StringLess, MaxString;
    var top := AtMost(|issued|, 99999);
    forall i | 0 <= i < |issued| ensures issued[i] == Format(top) || StringLess(issued[i], Format(top)) {
      if i + 1 < top { FiveDigitOrder(i + 1, top); }
      if i + 1 > top { SixDigitsSortLow(); }
    }
    assert issued[top - 1] == Format(top);
    MaxIs(issued, Format(top));
  }

  lemma {:induction false} NextAfter(issued: seq<string>)
    requires Counts(issued)
    ensures NextNumber(issued) == AtMost(|issued| + 1, LAST_FRESH)
  {
    if issued != [] {
      GreatestOf(issued);
      ParsePadded(AtMost(|issued|, 99999), 5);
    }
  }

  /** Document number `k + 1`, for every `k`: counting up to 100000, and 100000 again and again after that. */
  lemma {:induction false} NumbersIssued(n: nat)
    ensures Counts(Issued(n))
  {
    hide Format, NextNumber;
    if n > 0 {
      NumbersIssued(n - 1);
      NextAfter(Issued(n - 1));
    }
  }

  lemma {:induction false} FormatInjective(m: nat, n: nat)
    ensures Format(m) == Format(n) ==> m == n
  {
    ParsePadded(m, 5);
    ParsePadded(n, 5);
  }

  /** All numbers issued are different exactly as long as no more than 100000 are issued. */
  lemma {:induction false} DistinctExactly(n: nat)
    ensures (forall i, j :: 0 <= i < j < n ==> Issued(n)[i] != Issued(n)[j]) <==> n <= LAST_FRESH
  {
    hide Format, Issued;
    NumbersIssued(n);
    var issued := Issued(n);
    if n <= LAST_FRESH {
      forall i, j | 0 <= i < j < n ensures issued[i] != issued[j] { FormatInjective(i + 1, j + 1); }
    } else {
      assert issued[LAST_FRESH - 1] == issued[LAST_FRESH];
    }
  }

  /** The numbers issued under one prefix. */
  class NumberSeries {
    var issued: seq<string>

    constructor ()
      ensures issued == Issued(0)
    {
      issued := [];
    }

    method Generate() returns (number: string)
      modifies this
      ensures number == Format(NextNumber(old(issued))) && issued == old(issued) + [number]
      ensures old(issued) == Issued(|old(issued)|) ==>
                issued == Issued(|issued|) && number == Format(AtMost(|issued|, LAST_FRESH))
    {
      hide Format, TryParse, MaxString, Counts;
      var nextNumber := 1;
      if issued != [] {
        var last := TryParse(MaxString(issued));
        if last.Some? { nextNumber := Increment(last.value); }
      }
      number := Format(nextNumber);
      if issued == Issued(|issued|) {
        NumbersIssued(|issued|);
        NextAfter(issued);
      }
      issued := issued + [number];
    }
  }
}
