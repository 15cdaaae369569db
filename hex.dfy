/** Hexadecimal digits and numerals, shared by the WAL segment namer
    (Go's %X verb) and the passkey key codec (JavaScript toString(16)). */
module Hex {

  predicate IsHexDigit(c: char) {
    ('0' <= c <= '9') || ('a' <= c <= 'f') || ('A' <= c <= 'F')
  }

  predicate IsUpperHexDigit(c: char) {
    ('0' <= c <= '9') || ('A' <= c <= 'F')
  }

  predicate IsLowerHexDigit(c: char) {
    ('0' <= c <= '9') || ('a' <= c <= 'f')
  }

  predicate AllHex(s: string) {
    forall i :: 0 <= i < |s| ==> IsHexDigit(s[i])
  }

  predicate AllUpperHex(s: string) {
    forall i :: 0 <= i < |s| ==> IsUpperHexDigit(s[i])
  }

  function DigitValue(c: char): (v: nat)
    requires IsHexDigit(c)
    ensures v < 16
  {
    if '0' <= c <= '9' then c as int - '0' as int
    else if 'a' <= c <= 'f' then c as int - 'a' as int + 10
    else c as int - 'A' as int + 10
  }

  /** The digit for `v`, upper- or lower-case. */
  function Digit(v: nat, upper: bool): (c: char)
    requires v < 16
    ensures IsHexDigit(c) && DigitValue(c) == v
    ensures upper ==> IsUpperHexDigit(c)
    ensures !upper ==> IsLowerHexDigit(c)
  {
    if v < 10 then ('0' as int + v) as char
    else if upper then ('A' as int + v - 10) as char
    else ('a' as int + v - 10) as char
  }

  /** The number a string of hex digits denotes (most significant first). */
  function HexValue(s: string): nat
    requires AllHex(s)
    decreases |s|
  {
    if |s| == 0 then 0 else HexValue(s[..|s| - 1]) * 16 + DigitValue(s[|s| - 1])
  }

  function Pow16(n: nat): (p: nat)
    ensures p >= 1
  {
    if n == 0 then 1 else 16 * Pow16(n - 1)
  }

  lemma {:induction false} HexValueBound(s: string)
    requires AllHex(s)
    ensures HexValue(s) < Pow16(|s|)
    decreases |s|
  {
    if |s| > 0 {
      HexValueBound(s[..|s| - 1]);
    }
  }

  lemma HexValueSnoc(s: string, c: char)
    requires AllHex(s) && IsHexDigit(c)
    ensures AllHex(s + [c]) && HexValue(s + [c]) == HexValue(s) * 16 + DigitValue(c)
  {
    assert (s + [c])[..|s|] == s;
  }

  /** The shortest numeral for `v` (Go's %X without a width, JavaScript's
      Number.prototype.toString(16) in lower case). */
  function FormatHex(v: nat, upper: bool): (r: string)
    ensures |r| >= 1 && AllHex(r) && HexValue(r) == v
    ensures upper ==> AllUpperHex(r)
    ensures !upper ==> forall i :: 0 <= i < |r| ==> IsLowerHexDigit(r[i])
    decreases v
  {
    if v < 16 then [Digit(v, upper)]
    else
      var r := FormatHex(v / 16, upper) + [Digit(v % 16, upper)];
      HexValueSnoc(FormatHex(v / 16, upper), Digit(v % 16, upper));
      r
  }

  /** A numeral for a value below 16^n has at most n digits. */
  lemma {:induction false} FormatHexWidth(v: nat, upper: bool, n: nat)
    requires n >= 1 && v < Pow16(n)
    ensures |FormatHex(v, upper)| <= n
    decreases n
  {
    if v >= 16 {
      assert n >= 2;
      assert v / 16 < Pow16(n - 1);
      FormatHexWidth(v / 16, upper, n - 1);
    }
  }

  function Zeros(k: nat): (z: string)
    ensures |z| == k && forall i :: 0 <= i < k ==> z[i] == '0'
  {
    seq(k, i => '0')
  }

  /** `s` left-padded with '0' to at least `width` characters (the 0 flag of %08X,
      and padStart(2, '0')). */
  function PadZeros(s: string, width: nat): (r: string)
    ensures |s| >= width ==> r == s
    ensures |s| < width ==> r == Zeros(width - |s|) + s
  {
    if |s| >= width then s else Zeros(width - |s|) + s
  }

  lemma {:induction false} LeadingZeros(k: nat, s: string)
    requires AllHex(s)
    ensures AllHex(Zeros(k) + s) && HexValue(Zeros(k) + s) == HexValue(s)
    decreases |s|
  {
    var z := Zeros(k);
    if |s| == 0 {
      assert z + s == z;
      ZerosValue(k);
    } else {
      var i := s[..|s| - 1];
      LeadingZeros(k, i);
      assert z + s == (z + i) + [s[|s| - 1]];
      HexValueSnoc(z + i, s[|s| - 1]);
      HexValueSnoc(i, s[|s| - 1]);
      assert i + [s[|s| - 1]] == s;
    }
  }

  lemma {:induction false} ZerosValue(k: nat)
    ensures AllHex(Zeros(k)) && HexValue(Zeros(k)) == 0
    decreases k
  {
    if k > 0 {
      ZerosValue(k - 1);
      assert Zeros(k)[..k - 1] == Zeros(k - 1);
    }
  }

  /** Padding with zeros keeps the value and the case of the digits. */
  lemma PadZerosValue(s: string, width: nat)
    requires AllHex(s)
    ensures AllHex(PadZeros(s, width)) && HexValue(PadZeros(s, width)) == HexValue(s)
    ensures AllUpperHex(s) ==> AllUpperHex(PadZeros(s, width))
  {
    if |s| < width {
      LeadingZeros(width - |s|, s);
      var r := PadZeros(s, width);
      assert forall i :: 0 <= i < width - |s| ==> r[i] == '0';
      assert forall i :: width - |s| <= i < |r| ==> r[i] == s[i - (width - |s|)];
    }
  }
  lemma Pow16Eight()
    ensures Pow16(8) == 0x1_0000_0000
  {
  }

  /** A value below 2^32 printed with `%08X` is exactly 8 uppercase digits
      with that value. */
  lemma Hex8(v: nat)
    requires v < 0x1_0000_0000
    ensures |PadZeros(FormatHex(v, true), 8)| == 8
    ensures AllUpperHex(PadZeros(FormatHex(v, true), 8))
    ensures HexValue(PadZeros(FormatHex(v, true), 8)) == v
  {
    Pow16Eight();
    FormatHexWidth(v, true, 8);
    PadZerosValue(FormatHex(v, true), 8);
  }


  /** The length of the longest prefix of `s` made of hex digits. */
  function HexRunLength(s: string): (n: nat)
    ensures n <= |s| && AllHex(s[..n])
    ensures n < |s| ==> !IsHexDigit(s[n])
    decreases |s|
  {
    if |s| == 0 || !IsHexDigit(s[0]) then 0
    else
      var n := 1 + HexRunLength(s[1..]);
      assert s[..n] == [s[0]] + s[1..][..n - 1];
      n
  }

  lemma HexRunLengthAll(s: string)
    requires AllHex(s)
    ensures HexRunLength(s) == |s|
  {
  }
}
