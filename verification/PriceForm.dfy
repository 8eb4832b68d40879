/**
 Which texts are prices, and what they are worth: decimal numbers between spaces, worth their exact value in wei
 rounded down.
 */
module PriceForm {
  import opened Common
  import opened FixedPoint
  import opened PriceText

  predicate Spaces(s: string) {
    forall i :: 0 <= i < |s| ==> s[i] in {' ', '\t', '\n', '\U{0B}', '\U{0C}', '\r'}
  }

  function Number(whole: string, fraction: string): string {
    if fraction == "" then whole else whole + "." + fraction
  }

  /** A text is a number of these digits, with spaces around it. */
  ghost predicate Writes(value: string, whole: string, fraction: string) {
    && whole != "" && AllDigits(whole) && AllDigits(fraction)
    && exists before, after :: Spaces(before) && Spaces(after) && value == before + Number(whole, fraction) + after
  }

  // ---- the form ----

  lemma {:induction false} TrimFinds(s: string) returns (before: string, after: string)
    ensures Spaces(before) && Spaces(after) && s == before + Trim(s) + after
  {
    if s != "" && IsSpace(s[0]) {
      before, after := TrimFinds(s[1..]);
      before := [s[0]] + before;
    } else if s != "" && IsSpace(s[|s| - 1]) {
      before, after := TrimFinds(s[..|s| - 1]);
      after := after + [s[|s| - 1]];
    } else {
      before, after := "", "";
    }
  }

  lemma {:induction false} TrimStrips(before: string, text: string, after: string)
    requires Spaces(before) && Spaces(after)
    requires text != "" && !IsSpace(text[0]) && !IsSpace(text[|text| - 1])
    ensures Trim(before + text + after) == text
    decreases |before| + |after|
  {
    var s := before + text + after;
    if before != "" {
      assert s[1..] == before[1..] + text + after;
      TrimStrips(before[1..], text, after);
    } else if after != "" {
      assert s[..|s| - 1] == before + text + after[..|after| - 1];
      TrimStrips(before, text, after[..|after| - 1]);
    } else {
      assert s == text;
    }
  }

  lemma FirstDot(s: string, i: nat)
    requires i <= |s| && (forall j :: 0 <= j < i ==> s[j] != '.') && (i < |s| ==> s[i] == '.')
    ensures DotAt(s) == i
  {
  }

  lemma NumberSplits(whole: string, fraction: string)
    requires whole != "" && AllDigits(whole) && AllDigits(fraction)
    ensures var n := Number(whole, fraction);
            && IsUsdText(n) && DotAt(n) == |whole| && n[..|whole|] == whole
            && (fraction != "" ==> n[|whole| + 1..] == fraction && |whole| < |n|)
            && (fraction == "" ==> |n| == |whole|)
            && !IsSpace(n[0]) && !IsSpace(n[|n| - 1])
  {
    var n := Number(whole, fraction);
    assert forall i :: 0 <= i < |whole| ==> n[i] == whole[i];
    FirstDot(n, |whole|);
    assert IsDigit(n[0]);
    if fraction != "" {
      assert n[|whole| + 1..] == fraction;
      assert n[|n| - 1] == fraction[|fraction| - 1];
    } else {
      assert n[|n| - 1] == whole[|whole| - 1];
    }
  }

  // ---- the value ----

  /** The eighteen digits after the point: the fraction in wei, rounded down. */
  lemma FractionInWei(t: string)
    ensures var f := DigitsValue((t + Zeros(18))[..18]);
            f * Pow10(|t|) <= DigitsValue(t) * Pow10(18) < (f + 1) * Pow10(|t|)
  {
    hide DigitsValue, Pow10, Zeros;
    if |t| <= 18 {
      var k := 18 - |t|;
      FilledFraction(t, 18);
      ValueOfConcat(t, Zeros(k));
      ValueOfZeros(k);
      Pow10Sum(k, |t|);
      Exactly(DigitsValue(t), Pow10(k), Pow10(|t|));
    } else {
      var k := |t| - 18;
      LongPrefix(t);
      ValueOfConcat(t[..18], t[18..]);
      ValueBounded(t[18..]);
      Pow10Sum(k, 18);
      CutOff(DigitsValue(t[..18]), DigitsValue(t[18..]), Pow10(k), Pow10(18));
    }
  }

  lemma Exactly(x: nat, a: nat, b: nat)
    requires b > 0
    ensures x * a * b == x * (a * b) < (x * a + 1) * b
  {
    MulAssoc(x, a, b);
    assert (x * a + 1) * b == x * a * b + b;
  }

  lemma CutOff(f: nat, low: nat, unit: nat, scale: nat)
    requires low < unit && scale > 0
    ensures f * (unit * scale) <= (f * unit + low) * scale < (f + 1) * (unit * scale)
  {
    MulAssoc(f, unit, scale);
    MulAssoc(f + 1, unit, scale);
    MulMonotone(f * unit, f * unit + low, scale);
    assert (f + 1) * unit == f * unit + unit;
    MulMonotone(f * unit + low + 1, (f + 1) * unit, scale);
    assert (f * unit + low + 1) * scale == (f * unit + low) * scale + scale;
  }

  lemma LongPrefix(t: string)
    requires |t| > 18
    ensures (t + Zeros(18))[..18] == t[..18] && t == t[..18] + t[18..]
  {
  }

  /** Whole and fraction together are the digits without the point, read in wei. */
  lemma ValueInWei(whole: string, t: string, f: nat)
    requires f * Pow10(|t|) <= DigitsValue(t) * Pow10(18) < (f + 1) * Pow10(|t|)
    ensures var v := DigitsValue(whole) * WAD + f;
            v * Pow10(|t|) <= DigitsValue(whole + t) * Pow10(18) < (v + 1) * Pow10(|t|)
  {
    hide DigitsValue, Pow10;
    ValueOfConcat(whole, t);
    WadIsPow();
    var w, p := DigitsValue(whole), Pow10(|t|);
    assert DigitsValue(whole + t) * Pow10(18) == w * p * Pow10(18) + DigitsValue(t) * Pow10(18);
    MulAssoc(w, p, Pow10(18));
    MulAssoc(w, Pow10(18), p);
    assert (w * WAD + f) * p == w * WAD * p + f * p;
    assert (w * WAD + f + 1) * p == w * WAD * p + (f + 1) * p;
  }

  ghost predicate WorthInWei(whole: string, fraction: string, v: nat) {
    v * Pow10(|fraction|) <= DigitsValue(whole + fraction) * Pow10(18) < (v + 1) * Pow10(|fraction|)
  }

  lemma WritesIsParsed(value: string, whole: string, fraction: string)
    requires Writes(value, whole, fraction)
    ensures ParseUsdToWad(value).Some? && WorthInWei(whole, fraction, ParseUsdToWad(value).value)
  {
    hide DigitsValue, Trim, IsUsdText, Zeros, Pow10;
    var before, after :|
      Spaces(before) && Spaces(after) && value == before + Number(whole, fraction) + after;
    NumberSplits(whole, fraction);
    TrimStrips(before, Number(whole, fraction), after);
    FractionInWei(fraction);
    ValueInWei(whole, fraction, DigitsValue((fraction + Zeros(18))[..18]));
  }

  lemma ParsedIsWritten(value: string) returns (whole: string, fraction: string)
    requires ParseUsdToWad(value).Some?
    ensures Writes(value, whole, fraction)
  {
    var n := Trim(value);
    var dot := DotAt(n);
    whole, fraction := n[..dot], if dot == |n| then "" else n[dot + 1..];
    assert n == Number(whole, fraction);
    var before, after := TrimFinds(value);
  }

  lemma WorthIsUnique(whole: string, fraction: string, v: nat, v': nat)
    requires WorthInWei(whole, fraction, v) && WorthInWei(whole, fraction, v')
    ensures v == v'
  {
    hide DigitsValue, Pow10;
    if v < v' {
      MulMonotone(v + 1, v', Pow10(|fraction|));
    } else if v' < v {
      MulMonotone(v' + 1, v, Pow10(|fraction|));
    }
  }

  /** A text is a price of so many wei exactly when it is a number between spaces, with at least one digit before a
      point and one after it if there is a point, and its exact value rounds down to that. */
  lemma ParsesIff(value: string, v: nat)
    ensures ParseUsdToWad(value) == Some(v)
            <==> exists whole, fraction :: Writes(value, whole, fraction) && WorthInWei(whole, fraction, v)
  {
    hide Writes, WorthInWei, ParseUsdToWad;
    if ParseUsdToWad(value) == Some(v) {
      var whole, fraction := ParsedIsWritten(value);
      WritesIsParsed(value, whole, fraction);
    }
    if whole, fraction :| Writes(value, whole, fraction) && WorthInWei(whole, fraction, v) {
      WritesIsParsed(value, whole, fraction);
      WorthIsUnique(whole, fraction, v, ParseUsdToWad(value).value);
    }
  }

  /** A negative value prints as its size with a sign before it. */
  lemma SignOnly(v: int, decimals: nat, fractionDigits: int)
    requires v > 0
    ensures FormatUnits(-v, decimals, fractionDigits) == "-" + FormatUnits(v, decimals, fractionDigits)
  {
    hide NatToString, PadStart, StripTrailingZeros, Pow10, Quotient, Remainder;
    var whole := NatToString(Quotient(v, Pow10(decimals)));
    assert "-" + ("" + whole) == "-" + whole;
    forall t: string
      ensures "-" + whole + "." + t == "-" + ("" + whole + "." + t)
    {
    }
  }
}
