/** The string operations the interview pages rely on: decimal rendering of a
    non-negative integer (`Number.prototype.toString`), left padding with zeros
    (`String.prototype.padStart(width, '0')`), ASCII lower-casing
    (`String.prototype.toLowerCase` restricted to ASCII letters) and substring
    search (`String.prototype.includes`). */
module Text {

  // ---------------------------------------------------------------------------
  // Decimal digits
  // ---------------------------------------------------------------------------

  predicate IsDigit(c: char) {
    '0' <= c <= '9'
  }

  predicate AllDigits(s: string) {
    forall i :: 0 <= i < |s| ==> IsDigit(s[i])
  }

  function DigitValue(c: char): (d: nat)
    requires IsDigit(c)
    ensures d < 10
  {
    c as int - '0' as int
  }

  function DigitChar(d: nat): (c: char)
    requires d < 10
    ensures IsDigit(c)
    ensures DigitValue(c) == d
  {
    ('0' as int + d) as char
  }

  /** The decimal rendering of `n`, most significant digit first, without
      leading zeros. */
  function NatToDec(n: nat): (s: string)
    ensures 1 <= |s|
    ensures AllDigits(s)
    ensures |s| == 1 <==> n < 10
    ensures |s| == 2 <==> 10 <= n < 100
    ensures 1 < |s| ==> s[0] != '0'
  {
    if n < 10 then [DigitChar(n)] else NatToDec(n / 10) + [DigitChar(n % 10)]
  }

  /** The value of a string of decimal digits; the empty string reads as 0. */
  function DecToNat(s: string): nat
    requires AllDigits(s)
  {
    if s == [] then 0 else DecToNat(s[..|s| - 1]) * 10 + DigitValue(s[|s| - 1])
  }

  /** Reading back a rendered number gives the number. */
  lemma {:induction false} DecRoundTrip(n: nat)
    ensures DecToNat(NatToDec(n)) == n
  {
    var s := NatToDec(n);
    if n < 10 {
      assert s[..|s| - 1] == [];
    } else {
      assert s[..|s| - 1] == NatToDec(n / 10);
      DecRoundTrip(n / 10);
    }
  }

  // ---------------------------------------------------------------------------
  // Zero padding
  // ---------------------------------------------------------------------------

  function Zeros(k: nat): (z: string)
    ensures |z| == k
    ensures forall i :: 0 <= i < k ==> z[i] == '0'
  {
    seq(k, _ => '0')
  }

  /** `s.padStart(width, '0')`: `s` itself when it is already `width` long or
      longer, otherwise `s` preceded by as many zeros as make it `width` long. */
  function PadZero(s: string, width: nat): (r: string)
    ensures |r| == if |s| < width then width else |s|
    ensures r[|r| - |s|..] == s
    ensures forall i :: 0 <= i < |r| - |s| ==> r[i] == '0'
  {
    if |s| < width then Zeros(width - |s|) + s else s
  }

  /** A leading zero does not change the value of a digit string. */
  lemma {:induction false} LeadingZeroIgnored(s: string)
    requires AllDigits(s)
    ensures AllDigits(['0'] + s)
    ensures DecToNat(['0'] + s) == DecToNat(s)
  {
    var t := ['0'] + s;
    if s == [] {
      assert t[..|t| - 1] == [];
    } else {
      assert t[..|t| - 1] == ['0'] + s[..|s| - 1];
      LeadingZeroIgnored(s[..|s| - 1]);
    }
  }

  /** Any number of leading zeros leaves the value unchanged. */
  lemma {:induction false} ZerosIgnored(k: nat, s: string)
    requires AllDigits(s)
    ensures AllDigits(Zeros(k) + s)
    ensures DecToNat(Zeros(k) + s) == DecToNat(s)
  {
    if k > 0 {
      assert Zeros(k) + s == ['0'] + (Zeros(k - 1) + s);
      ZerosIgnored(k - 1, s);
      LeadingZeroIgnored(Zeros(k - 1) + s);
    } else {
      assert Zeros(k) + s == s;
    }
  }

  /** Padding a digit string with zeros keeps it a digit string of the same value. */
  lemma PadZeroKeepsValue(s: string, width: nat)
    requires AllDigits(s)
    ensures AllDigits(PadZero(s, width))
    ensures DecToNat(PadZero(s, width)) == DecToNat(s)
  {
    if |s| < width {
      ZerosIgnored(width - |s|, s);
    }
  }

  // ---------------------------------------------------------------------------
  // ASCII lower case
  // ---------------------------------------------------------------------------

  predicate IsUpper(c: char) {
    'A' <= c <= 'Z'
  }

  function LowerChar(c: char): char {
    if IsUpper(c) then (c as int + 32) as char else c
  }

  /** `s.toLowerCase()` over the ASCII letters: each upper-case letter becomes
      its lower-case partner, every other character is kept. */
  function ToLowerAscii(s: string): (r: string)
    ensures |r| == |s|
    ensures forall i :: 0 <= i < |r| ==> !IsUpper(r[i])
    ensures forall i :: 0 <= i < |s| && !IsUpper(s[i]) ==> r[i] == s[i]
    ensures forall i :: 0 <= i < |s| && IsUpper(s[i]) ==> r[i] as int == s[i] as int + 32
  {
    seq(|s|, i requires 0 <= i < |s| => LowerChar(s[i]))
  }

  /** Lower-casing twice is lower-casing once. */
  lemma LowerIdempotent(s: string)
    ensures ToLowerAscii(ToLowerAscii(s)) == ToLowerAscii(s)
  {
  }

  // ---------------------------------------------------------------------------
  // Substring search
  // ---------------------------------------------------------------------------

  ghost predicate OccursAt(s: string, p: string, i: int) {
    0 <= i && i + |p| <= |s| && s[i..i + |p|] == p
  }

  /** `p` appears somewhere in `s` (the empty string appears everywhere). */
  ghost predicate HasSubstring(s: string, p: string) {
    exists i :: OccursAt(s, p, i)
  }

  /** When `p` is not a prefix of a non-empty `s`, it occurs in `s` exactly when
      it occurs in `s` without its first character. */
  lemma SearchStep(s: string, p: string)
    requires |s| > 0
    requires !(|p| <= |s| && s[..|p|] == p)
    ensures HasSubstring(s, p) <==> HasSubstring(s[1..], p)
  {
    if HasSubstring(s, p) {
      var i :| OccursAt(s, p, i);
      assert i != 0;
      assert s[1..][i - 1..i - 1 + |p|] == s[i..i + |p|];
      assert OccursAt(s[1..], p, i - 1);
    }
    if HasSubstring(s[1..], p) {
      var i :| OccursAt(s[1..], p, i);
      assert s[1..][i..i + |p|] == s[i + 1..i + 1 + |p|];
      assert OccursAt(s, p, i + 1);
    }
  }

  /** `s.includes(p)`, by trying each start position in turn. */
  function Contains(s: string, p: string): (b: bool)
    ensures b <==> HasSubstring(s, p)
    decreases |s|
  {
    if |p| <= |s| && s[..|p|] == p then
      assert OccursAt(s, p, 0);
      true
    else if |s| == 0 then
      false
    else
      SearchStep(s, p);
      Contains(s[1..], p)
  }
}
