/**
 Hexadecimal text and the 32-byte words of the Solidity contract ABI, as the backend reads them: a word is
 64 hex digits.
 */
module AbiWords {
  import opened Common

  datatype AbiError = InvalidLength | InvalidAddress | OutOfBounds | NotANumber

  const WORD: nat := 64

  predicate IsHexDigit(c: char) {
    '0' <= c <= '9' || 'a' <= c <= 'f' || 'A' <= c <= 'F'
  }

  predicate AllHex(s: string) {
    forall i :: 0 <= i < |s| ==> IsHexDigit(s[i])
  }

  function HexValue(c: char): (d: nat)
    ensures d < 16
  {
    if '0' <= c <= '9' then (c - '0') as nat
    else if 'a' <= c <= 'f' then 10 + (c - 'a') as nat
    else if 'A' <= c <= 'F' then 10 + (c - 'A') as nat
    else 0
  }

  function HexChar(d: nat): (c: char)
    requires d < 16
    ensures IsHexDigit(c) && HexValue(c) == d && LowerChar(c) == c
  {
    if d < 10 then '0' + d as char else 'a' + (d - 10) as char
  }

  function LowerChar(c: char): char {
    if 'A' <= c <= 'Z' then c - 'A' + 'a' else c
  }

  /** text.toLowerCase(), for ASCII text. */
  function Lower(s: string): (r: string)
    ensures |r| == |s|
  {
    seq(|s|, i requires 0 <= i < |s| => LowerChar(s[i]))
  }

  lemma LowerTwice(s: string)
    ensures Lower(Lower(s)) == Lower(s)
  {
  }

  function Pow16(n: nat): (r: nat)
    ensures r >= 1
  {
    if n == 0 then 1 else 16 * Pow16(n - 1)
  }

  lemma {:induction false} Pow16Grows(a: nat, b: nat)
    requires a <= b
    ensures Pow16(a) <= Pow16(b)
  {
    if a < b {
      Pow16Grows(a, b - 1);
    }
  }

  /** The number hex digits stand for. */
  function HexNumber(s: string): nat {
    if s == "" then 0 else 16 * HexNumber(s[..|s| - 1]) + HexValue(s[|s| - 1])
  }

  /** A number in n lower-case hex digits, its high digits dropped if it has more. */
  function ToHex(v: nat, n: nat): (s: string)
    ensures |s| == n && AllHex(s) && Lower(s) == s
  {
    if n == 0 then "" else ToHex(v / 16, n - 1) + [HexChar(v % 16)]
  }

  lemma HexNumberSnoc(s: string, c: char)
    ensures HexNumber(s + [c]) == 16 * HexNumber(s) + HexValue(c)
  {
    assert (s + [c])[..|s|] == s;
  }

  lemma QuotientFits(v: nat, p: nat)
    requires v < 16 * p
    ensures v / 16 < p && v == 16 * (v / 16) + v % 16
  {
  }

  lemma {:induction false} HexRoundTrip(v: nat, n: nat)
    requires v < Pow16(n)
    ensures HexNumber(ToHex(v, n)) == v
  {
    hide HexNumber, HexChar, HexValue;
    if n == 0 {
      EmptyIsZero();
    } else {
      QuotientFits(v, Pow16(n - 1));
      HexRoundTrip(v / 16, n - 1);
      HexNumberSnoc(ToHex(v / 16, n - 1), HexChar(v % 16));
    }
  }

  lemma EmptyIsZero()
    ensures HexNumber("") == 0
  {
  }

  /** Writing a number back in as many digits gives the digits in lower case. */
  lemma {:induction false} NumberRoundTrip(s: string)
    requires AllHex(s)
    ensures ToHex(HexNumber(s), |s|) == Lower(s)
  {
    hide HexChar, HexValue;
    if s != "" {
      var front, last := s[..|s| - 1], s[|s| - 1];
      NumberRoundTrip(front);
      assert HexNumber(s) == 16 * HexNumber(front) + HexValue(last);
      Digits(HexNumber(front), HexValue(last));
      LowerDigit(last);
      assert Lower(s) == Lower(front) + [LowerChar(last)];
    }
  }

  lemma Digits(q: nat, d: nat)
    requires d < 16
    ensures (16 * q + d) / 16 == q && (16 * q + d) % 16 == d
  {
  }

  lemma LowerDigit(c: char)
    requires IsHexDigit(c)
    ensures HexChar(HexValue(c)) == LowerChar(c)
  {
  }

  /** BigInt("0x" + text). */
  function ParseHex(s: string): Result<nat, AbiError> {
    if s != "" && AllHex(s) then Ok(HexNumber(s)) else Err(NotANumber)
  }

  function Strip0x(s: string): string {
    if |s| >= 2 && s[..2] == "0x" then s[2..] else s
  }

  /** text.slice(start, end), which keeps within the text. */
  function Slice(s: string, start: nat, end: nat): string {
    var to := if end < |s| then end else |s|;
    if start < to then s[start..to] else ""
  }

  /** text.padStart(64, "0") */
  function Pad32(s: string): string {
    if |s| < WORD then Zeros(WORD - |s|) + s else s
  }

  // ---- encoding one word ----

  predicate IsAddress(a: string) {
    |a| == 42 && a[..2] == "0x"
  }

  predicate IsUint(v: nat) {
    v < Pow16(WORD)
  }

  function UintWord(v: nat): (w: string)
    ensures |w| == WORD
  {
    ToHex(v, WORD)
  }

  function AddressWord(a: string): (w: string)
    requires IsAddress(a)
    ensures |w| == WORD
  {
    Pad32(a[2..])
  }

  // ---- words side by side ----

  predicate AreWords(words: seq<string>) {
    forall i :: 0 <= i < |words| ==> |words[i]| == WORD
  }

  function Join(words: seq<string>): string {
    if words == [] then "" else Join(words[..|words| - 1]) + words[|words| - 1]
  }

  lemma {:induction false} JoinLength(words: seq<string>)
    requires AreWords(words)
    ensures |Join(words)| == |words| * WORD
  {
    if words != [] {
      JoinLength(words[..|words| - 1]);
    }
  }

  lemma {:induction false} JoinedWord(words: seq<string>, i: nat)
    requires AreWords(words) && i < |words|
    ensures |Join(words)| == |words| * WORD && i * WORD + WORD <= |words| * WORD
    ensures Join(words)[i * WORD..i * WORD + WORD] == words[i]
  {
    var front := words[..|words| - 1];
    JoinLength(words);
    JoinLength(front);
    if i < |front| {
      JoinedWord(front, i);
      assert Join(words)[i * WORD..i * WORD + WORD] == Join(front)[i * WORD..i * WORD + WORD];
    } else {
      assert Join(words)[|front| * WORD..] == words[i];
    }
  }
}
