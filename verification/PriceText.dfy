/**
 Prices travel through the guard as decimal text: formatUnits prints them and parseUsdToWad reads them
 back (risk-v1.ts). Text is ASCII.
 */
module PriceText {
  import opened Common
  import opened FixedPoint

  // ---- decimal digits ----

  predicate IsDigit(c: char) {
    '0' <= c <= '9'
  }

  predicate AllDigits(s: string) {
    forall i :: 0 <= i < |s| ==> IsDigit(s[i])
  }

  function DigitChar(d: nat): (c: char)
    requires d < 10
    ensures IsDigit(c)
  {
    '0' + d as char
  }

  function DigitValue(c: char): (d: nat)
    ensures d < 10
  {
    if IsDigit(c) then (c - '0') as nat else 0
  }

  /** bigint.toString() of a non-negative value. */
  function NatToString(n: nat): (s: string)
    ensures AllDigits(s) && s != ""
  {
    if n < 10 then [DigitChar(n)] else NatToString(n / 10) + [DigitChar(n % 10)]
  }

  /** BigInt(text) of a digit string. */
  function DigitsValue(s: string): nat {
    if s == "" then 0 else DigitsValue(s[..|s| - 1]) * 10 + DigitValue(s[|s| - 1])
  }

  /** text.padStart(width, "0") */
  function PadStart(s: string, width: nat): string {
    if |s| >= width then s else Zeros(width - |s|) + s
  }

  /** text.replace(/0+$/, "") */
  function StripTrailingZeros(s: string): string {
    if s != "" && s[|s| - 1] == '0' then StripTrailingZeros(s[..|s| - 1]) else s
  }

  // ---- printing ----

  function FormatUnits(value: int, decimals: nat, fractionDigits: int): string {
    var sign := if value < 0 then "-" else "";
    var abs: nat := if value < 0 then -value else value;
    var base := Pow10(decimals);
    var whole, fractionRaw := Quotient(abs, base), Remainder(abs, base);
    if fractionDigits <= 0 then sign + NatToString(whole)
    else
      var padded := PadStart(NatToString(fractionRaw), decimals);
      var sliced := Prefix(padded, Min(fractionDigits, decimals));
      var trimmed := StripTrailingZeros(sliced);
      if trimmed == "" then sign + NatToString(whole)
      else sign + NatToString(whole) + "." + trimmed
  }

  function Prefix(s: string, n: nat): string {
    if n <= |s| then s[..n] else s
  }

  function Quotient(a: nat, b: nat): nat
    requires b > 0
  {
    DivBounds(a, b);
    a / b
  }

  function Remainder(a: nat, b: nat): nat
    requires b > 0
  {
    a % b
  }

  // ---- parsing ----

  /** The white space of text.trim(), as far as it is ASCII. */
  predicate IsSpace(c: char) {
    c == ' ' || '\t' <= c <= '\r'
  }

  function Trim(s: string): string {
    if s != "" && IsSpace(s[0]) then Trim(s[1..])
    else if s != "" && IsSpace(s[|s| - 1]) then Trim(s[..|s| - 1])
    else s
  }

  /** The position of the first dot, or the length of the text. */
  function DotAt(s: string): (i: nat)
    ensures i <= |s|
    ensures forall j :: 0 <= j < i ==> s[j] != '.'
    ensures i < |s| ==> s[i] == '.'
  {
    if s == "" || s[0] == '.' then 0 else 1 + DotAt(s[1..])
  }

  /** Digits, optionally a dot and more digits: the text matched by /^\d+(\.\d+)?$/. */
  predicate IsUsdText(s: string) {
    var dot := DotAt(s);
    && dot > 0 && AllDigits(s[..dot])
    && (dot == |s| || (dot + 1 < |s| && AllDigits(s[dot + 1..])))
  }

  /** None is the thrown error on text that is not a USD value. */
  function ParseUsdToWad(value: string): Option<nat> {
    var trimmed := Trim(value);
    if !IsUsdText(trimmed) then None
    else
      var dot := DotAt(trimmed);
      var frac := if dot == |trimmed| then "" else trimmed[dot + 1..];
      Some(DigitsValue(trimmed[..dot]) * WAD + DigitsValue((frac + Zeros(18))[..18]))
  }

  // ------------------------------------------------------------------ theorems

  lemma {:induction false} ToStringValue(n: nat)
    ensures DigitsValue(NatToString(n)) == n
  {
    if n >= 10 {
      ToStringValue(n / 10);
      assert NatToString(n)[..|NatToString(n)| - 1] == NatToString(n / 10);
    }
  }

  lemma {:induction false} ValueBounded(s: string)
    ensures DigitsValue(s) < Pow10(|s|)
  {
    if s != "" {
      ValueBounded(s[..|s| - 1]);
    }
  }

  lemma {:induction false} ToStringLength(n: nat, k: nat)
    requires n < Pow10(k) && k > 0
    ensures |NatToString(n)| <= k
  {
    if n >= 10 {
      assert k > 1;
      ToStringLength(n / 10, k - 1);
    }
  }

  lemma {:induction false} ValueOfConcat(s: string, t: string)
    ensures DigitsValue(s + t) == DigitsValue(s) * Pow10(|t|) + DigitsValue(t)
  {
    if t == "" {
      assert s + t == s;
    } else {
      var t', p := t[..|t| - 1], Pow10(|t| - 1);
      ValueOfConcat(s, t');
      assert (s + t)[..|s + t| - 1] == s + t';
      assert Pow10(|t|) == 10 * p;
      ScaleTen(DigitsValue(s), p);
    }
  }

  lemma ScaleTen(x: nat, p: nat)
    ensures x * (10 * p) == 10 * (x * p)
  {
  }

  lemma {:induction false} ValueOfZeros(n: nat)
    ensures DigitsValue(Zeros(n)) == 0
  {
    if n > 0 {
      assert Zeros(n)[..n - 1] == Zeros(n - 1);
      ValueOfZeros(n - 1);
    }
  }

  lemma PadStartValue(n: nat, width: nat)
    requires n < Pow10(width) && width > 0
    ensures var s := PadStart(NatToString(n), width);
            |s| == width && DigitsValue(s) == n && AllDigits(s)
  {
    hide DigitsValue, Pow10, NatToString;
    ToStringLength(n, width);
    ToStringValue(n);
    var s := NatToString(n);
    if |s| < width {
      ValueOfZeros(width - |s|);
      ValueOfConcat(Zeros(width - |s|), s);
    }
    PaddedDigits(s, width);
  }

  lemma PaddedDigits(s: string, width: nat)
    requires AllDigits(s) && |s| <= width
    ensures |PadStart(s, width)| == width && AllDigits(PadStart(s, width))
  {
    var t := PadStart(s, width);
    forall i | 0 <= i < |t|
      ensures IsDigit(t[i])
    {
      if |s| < width && i >= width - |s| {
        assert t[i] == s[i - (width - |s|)];
      }
    }
  }

  /** The digits a strip removes are zeros, so padding them back restores the text. */
  lemma {:induction false} StripThenPad(s: string)
    ensures var t := StripTrailingZeros(s);
            |t| <= |s| && t + Zeros(|s| - |t|) == s && (t != "" ==> t[|t| - 1] != '0')
  {
    if s != "" && s[|s| - 1] == '0' {
      StripThenPad(s[..|s| - 1]);
      var t := StripTrailingZeros(s);
      assert Zeros(|s| - |t|) == Zeros(|s| - 1 - |t|) + "0";
      assert s == s[..|s| - 1] + "0";
    } else {
      assert s + Zeros(0) == s;
    }
  }

  lemma {:induction false} Pow10Sum(a: nat, b: nat)
    ensures Pow10(a + b) == Pow10(a) * Pow10(b)
  {
    if b > 0 {
      Pow10Sum(a, b - 1);
      MulAssoc(Pow10(a), 10, Pow10(b - 1));
    }
  }

  lemma MulAssoc(x: nat, y: nat, z: nat)
    ensures x * (y * z) == y * (x * z) == (x * y) * z
  {
  }

  /** A value with everything below a unit cleared. */
  function ClearBelow(v: nat, unit: nat): (r: nat)
    requires unit > 0
    ensures r <= v
  {
    DivBounds(v, unit);
    v / unit * unit
  }

  lemma QuotientUnique(q: nat, r: nat, b: nat)
    requires r < b
    ensures (q * b + r) / b == q
  {
    var a := q * b + r;
    DivAtLeast(a, b, q);
    assert (q + 1) * b == q * b + b;
    DivAtMost(a, b, q);
  }

  /** The first k digits, padded back with zeros: the value with its low digits cleared. */
  lemma TruncatedValue(s: string, k: nat)
    requires k <= |s|
    ensures DigitsValue(s[..k] + Zeros(|s| - k)) == ClearBelow(DigitsValue(s), Pow10(|s| - k))
  {
    hide DigitsValue, Pow10;
    var low := s[k..];
    assert s == s[..k] + low;
    ValueOfConcat(s[..k], low);
    ValueOfConcat(s[..k], Zeros(|s| - k));
    ValueOfZeros(|s| - k);
    ValueBounded(low);
    QuotientUnique(DigitsValue(s[..k]), DigitsValue(low), Pow10(|s| - k));
  }

  lemma StrippedDigits(s: string)
    requires AllDigits(s)
    ensures AllDigits(StripTrailingZeros(s))
  {
  }

  /** Of a number's digits, padded to n: the first k, without the zeros at their end. */
  function KeptDigits(r: nat, n: nat, k: nat): string {
    StripTrailingZeros(Prefix(PadStart(NatToString(r), n), k))
  }

  lemma KeptDigitsValue(r: nat, n: nat, k: nat)
    requires 0 < n && k <= n && r < Pow10(n)
    ensures var t := KeptDigits(r, n, k);
            && |t| <= k && AllDigits(t)
            && DigitsValue(t + Zeros(n - |t|)) == ClearBelow(r, Pow10(n - k))
  {
    hide DigitsValue, Pow10, NatToString, StripTrailingZeros, PadStart, Zeros, ClearBelow;
    PadStartValue(r, n);
    var padded := PadStart(NatToString(r), n);
    assert KeptDigits(r, n, k) == StripTrailingZeros(padded[..k]);
    StripThenPad(padded[..k]);
    StrippedDigits(padded[..k]);
    StrippedValue(padded, k);
  }

  lemma StrippedValue(s: string, k: nat)
    requires k <= |s|
    ensures var t := StripTrailingZeros(s[..k]);
            |t| <= k && DigitsValue(t + Zeros(|s| - |t|)) == ClearBelow(DigitsValue(s), Pow10(|s| - k))
  {
    hide DigitsValue, Pow10, StripTrailingZeros, ClearBelow;
    StripThenPad(s[..k]);
    TruncatedValue(s, k);
    var t := StripTrailingZeros(s[..k]);
    assert Zeros(|s| - |t|) == Zeros(k - |t|) + Zeros(|s| - k);
    assert t + Zeros(|s| - |t|) == (t + Zeros(k - |t|)) + Zeros(|s| - k);
  }

  lemma KeptDigitsOfCleared(r: nat, n: nat, k: nat)
    requires 0 < n && k <= n && r < Pow10(n)
    ensures ClearBelow(r, Pow10(n - k)) < Pow10(n)
    ensures KeptDigits(ClearBelow(r, Pow10(n - k)), n, k) == KeptDigits(r, n, k)
  {
    var r' := ClearBelow(r, Pow10(n - k));
    PadStartValue(r, n);
    PadStartValue(r', n);
    var s, s' := PadStart(NatToString(r), n), PadStart(NatToString(r'), n);
    TruncatedValue(s, k);
    SameValueSameText(s', s[..k] + Zeros(n - k));
  }

  /** Clearing below a unit that divides the base clears the remainder only. */
  lemma ClearRemainder(q: nat, r: nat, c: nat, unit: nat)
    requires unit > 0 && r < c * unit
    ensures ClearBelow(q * (c * unit) + r, unit) == q * (c * unit) + ClearBelow(r, unit)
  {
    var rq := r / unit;
    DivBounds(r, unit);
    MulAssoc(q, c, unit);
    assert (rq + 1) * unit == rq * unit + unit;
    assert q * (c * unit) + rq * unit == (q * c + rq) * unit;
    QuotientUnique(q * c + rq, r - rq * unit, unit);
  }

  // ---- the printed wad ----

  const WAD_DIGITS: nat := 18

  lemma WadIsPow()
    ensures Pow10(WAD_DIGITS) == WAD
  {
    assert Pow10(6) == 1000000;
    Pow10Sum(6, 6);
    Pow10Sum(12, 6);
  }

  /** How many fraction digits of a wad are printed. */
  function Kept(fractionDigits: int): (k: nat)
    ensures k <= WAD_DIGITS
  {
    Min(Max(fractionDigits, 0), WAD_DIGITS)
  }

  /** The value that survives printing: everything below the last printed digit is cleared. */
  function Printed(p: nat, fractionDigits: int): nat {
    ClearBelow(p, Pow10(WAD_DIGITS - Kept(fractionDigits)))
  }

  function FractionText(p: nat, fractionDigits: int): (t: string)
    ensures |t| <= WAD_DIGITS && AllDigits(t)
  {
    WadIsPow();
    if fractionDigits <= 0 then ""
    else
      KeptDigitsValue(Remainder(p, WAD), WAD_DIGITS, Kept(fractionDigits));
      KeptDigits(Remainder(p, WAD), WAD_DIGITS, Kept(fractionDigits))
  }

  lemma FractionTextValue(p: nat, fractionDigits: int)
    ensures var t := FractionText(p, fractionDigits);
            DigitsValue(t + Zeros(WAD_DIGITS - |t|))
            == ClearBelow(Remainder(p, WAD), Pow10(WAD_DIGITS - Kept(fractionDigits)))
  {
    hide DigitsValue, Zeros, KeptDigits;
    WadIsPow();
    var r, k := Remainder(p, WAD), Kept(fractionDigits);
    if fractionDigits <= 0 {
      ValueOfZeros(WAD_DIGITS);
      assert "" + Zeros(WAD_DIGITS) == Zeros(WAD_DIGITS);
      DivAtMost(r, WAD, 0);
    } else {
      KeptDigitsValue(r, WAD_DIGITS, k);
    }
  }

  lemma SplitAtPoint(p: nat)
    ensures p == Quotient(p, WAD) * WAD + Remainder(p, WAD) && Remainder(p, WAD) < WAD
  {
  }

  lemma PrintedSplit(p: nat, fractionDigits: int)
    ensures Quotient(p, WAD) * WAD + ClearBelow(Remainder(p, WAD), Pow10(WAD_DIGITS - Kept(fractionDigits)))
            == Printed(p, fractionDigits)
  {
    var k := Kept(fractionDigits);
    WadIsPow();
    SplitAtPoint(p);
    Pow10Sum(k, WAD_DIGITS - k);
    ClearRemainder(Quotient(p, WAD), Remainder(p, WAD), Pow10(k), Pow10(WAD_DIGITS - k));
  }

  lemma FormatShape(p: nat, fractionDigits: int)
    ensures var t := FractionText(p, fractionDigits);
            FormatUnits(p, 18, fractionDigits)
            == NatToString(Quotient(p, WAD)) + (if t == "" then "" else "." + t)
  {
    WadIsPow();
    var w := NatToString(Quotient(p, WAD));
    assert "" + w == w && w + "" == w;
    var t := FractionText(p, fractionDigits);
    if fractionDigits > 0 && t != "" {
      assert ("" + w) + "." + t == w + ("." + t);
    }
  }

  lemma ParseWhole(w: string)
    requires w != "" && AllDigits(w)
    ensures ParseUsdToWad(w) == Some(DigitsValue(w) * WAD)
  {
    hide DigitsValue, Trim, DotAt, Zeros;
    TrimOfDigits(w);
    DotAfterDigits(w, w);
    assert w[..|w|] == w && ("" + Zeros(18))[..18] == Zeros(WAD_DIGITS);
    ValueOfZeros(WAD_DIGITS);
  }

  lemma ParseFraction(w: string, t: string)
    requires w != "" && AllDigits(w) && t != "" && AllDigits(t) && |t| <= WAD_DIGITS
    ensures ParseUsdToWad(w + ("." + t))
            == Some(DigitsValue(w) * WAD + DigitsValue(t + Zeros(WAD_DIGITS - |t|)))
  {
    hide DigitsValue, Trim, DotAt, Zeros;
    var s := w + ("." + t);
    assert s[|s| - 1] == t[|t| - 1] && s[0] == w[0];
    TrimOfDigits(s);
    assert s[..|w|] == w && s[|w| + 1..] == t && s[|w|] == '.';
    DotAfterDigits(s, w);
    FilledFraction(t, WAD_DIGITS);
  }

  lemma ParseText(w: string, t: string)
    requires w != "" && AllDigits(w) && AllDigits(t) && |t| <= WAD_DIGITS
    ensures ParseUsdToWad(w + (if t == "" then "" else "." + t))
            == Some(DigitsValue(w) * WAD + DigitsValue(t + Zeros(WAD_DIGITS - |t|)))
  {
    if t == "" {
      assert w + "" == w;
      ParseWhole(w);
      ValueOfZeros(WAD_DIGITS);
      assert t + Zeros(WAD_DIGITS - |t|) == Zeros(WAD_DIGITS);
    } else {
      ParseFraction(w, t);
    }
  }

  lemma FilledFraction(t: string, n: nat)
    requires |t| <= n
    ensures (t + Zeros(n))[..n] == t + Zeros(n - |t|)
  {
  }

  lemma TrimOfDigits(s: string)
    requires s != "" && IsDigit(s[0]) && IsDigit(s[|s| - 1])
    ensures Trim(s) == s
  {
  }

  lemma DotAfterDigits(s: string, w: string)
    requires AllDigits(w) && |w| <= |s| && s[..|w|] == w
    ensures DotAt(s) >= |w|
    ensures |s| == |w| || s[|w|] == '.' ==> DotAt(s) == |w|
  {
    forall i | 0 <= i < |w|
      ensures s[i] != '.'
    {
      assert s[..|w|][i] == w[i];
    }
  }

  /** Printing a price and reading it back clears exactly the digits below the last one printed, for every
      price and every number of fraction digits. */
  lemma PrintThenParse(p: nat, fractionDigits: int)
    ensures ParseUsdToWad(FormatUnits(p, 18, fractionDigits)) == Some(Printed(p, fractionDigits))
  {
    hide DigitsValue, Pow10, ParseUsdToWad, FormatUnits, NatToString, ClearBelow;
    var whole, t := Quotient(p, WAD), FractionText(p, fractionDigits);
    var w, low := NatToString(whole), DigitsValue(t + Zeros(WAD_DIGITS - |t|));
    var text := w + (if t == "" then "" else "." + t);
    assert FormatUnits(p, 18, fractionDigits) == text by { FormatShape(p, fractionDigits); }
    assert ParseUsdToWad(text) == Some(DigitsValue(w) * WAD + low) by {
      FractionTextValue(p, fractionDigits);
      ParseText(w, t);
    }
    assert DigitsValue(w) == whole by { ToStringValue(whole); }
    assert whole * WAD + low == Printed(p, fractionDigits) by {
      FractionTextValue(p, fractionDigits);
      PrintedSplit(p, fractionDigits);
    }
  }

  /** The oracle path prints eight fraction digits: a price loses exactly its last ten digits. */
  lemma OraclePriceRoundTrip(p: nat)
    ensures ParseUsdToWad(FormatUnits(p, 18, 8)) == Some(p - p % 10_000_000_000)
  {
    hide ParseUsdToWad, FormatUnits;
    PrintThenParse(p, 8);
    assert Pow10(10) == 10_000_000_000;
  }

  /** Printing what was read back gives the same text: the printed form is a fixed point. */
  lemma ReprintIsSame(p: nat, fractionDigits: int)
    ensures FormatUnits(Printed(p, fractionDigits), 18, fractionDigits) == FormatUnits(p, 18, fractionDigits)
  {
    hide FormatUnits, Pow10, NatToString, KeptDigits;
    var q, r, k := Quotient(p, WAD), Remainder(p, WAD), Kept(fractionDigits);
    var r' := ClearBelow(r, Pow10(WAD_DIGITS - k));
    PrintedSplit(p, fractionDigits);
    SplitAtPoint(Printed(p, fractionDigits));
    QuotientUnique(q, r', WAD);
    FormatShape(p, fractionDigits);
    FormatShape(Printed(p, fractionDigits), fractionDigits);
    WadIsPow();
    KeptDigitsOfCleared(r, WAD_DIGITS, k);
  }

  lemma {:induction false} SameValueSameText(s: string, t: string)
    requires AllDigits(s) && AllDigits(t) && |s| == |t| && DigitsValue(s) == DigitsValue(t)
    ensures s == t
  {
    if s != "" {
      var s', t' := s[..|s| - 1], t[..|t| - 1];
      assert DigitsValue(s') == DigitsValue(t');
      SameValueSameText(s', t');
      assert s == s' + [s[|s| - 1]] && t == t' + [t[|t| - 1]];
    }
  }

  /** Two prices print alike exactly when they agree down to the last printed digit. */
  lemma SameTextSamePrice(p: nat, p': nat, fractionDigits: int)
    ensures FormatUnits(p, 18, fractionDigits) == FormatUnits(p', 18, fractionDigits)
            <==> Printed(p, fractionDigits) == Printed(p', fractionDigits)
  {
    PrintThenParse(p, fractionDigits);
    PrintThenParse(p', fractionDigits);
    ReprintIsSame(p, fractionDigits);
    ReprintIsSame(p', fractionDigits);
  }
}
