/** WAL segment file names: 8 hex digits of timeline followed by 16 hex digits
    of segment number, as parsed and incremented by the PITR continuity check
    (apps/watchdog/internal/api/pitr_logic.go). */
module WalNames {

  import opened Hex
  import Strings

  const Uint64Modulus: nat := 0x1_0000_0000_0000_0000

  /** The white space fmt's scanner skips before a verb: Go's space set
      except the newline, which ends a Sscanf input line. */
  predicate ScanSpace(c: char) {
    Strings.GoSpace(c) && c != '\n'
  }

  /** fmt's SkipSpace: the leading scan spaces removed. */
  function SkipSpace(s: string): (r: string)
    ensures |r| <= |s| && (r == "" || !ScanSpace(r[0]))
    decreases |s|
  {
    if |s| > 0 && ScanSpace(s[0]) then SkipSpace(s[1..]) else s
  }

  /** The characters the scanner collects for %X: hex digits of either case
      and the digit separator '_'. */
  predicate TokenChar(c: char) {
    IsHexDigit(c) || c == '_'
  }

  /** Length of the longest prefix of token characters. */
  function TokenLength(s: string): (n: nat)
    ensures n <= |s|
    ensures forall i :: 0 <= i < n ==> TokenChar(s[i])
    ensures n < |s| ==> !TokenChar(s[n])
    decreases |s|
  {
    if |s| == 0 || !TokenChar(s[0]) then 0 else 1 + TokenLength(s[1..])
  }

  /** fmt.Sscanf(s, "%X", &val) into a uint64 that starts at 0. The scanner
      skips spaces other than the newline, collects the run of token
      characters, and hands it to strconv.ParseUint with base 16. A newline
      or the end of the input where the number should start, an empty run,
      a '_' in the run (ParseUint accepts it only with base 0) and a value
      that does not fit in 64 bits all make the scan fail, and val stays 0. */
  function ScanHexUint64(s: string): (v: nat)
    ensures v < Uint64Modulus
  {
    var t := SkipSpace(s);
    var n := TokenLength(t);
    if n == 0 || !AllHex(t[..n]) then 0
    else if HexValue(t[..n]) < Uint64Modulus then HexValue(t[..n])
    else 0
  }

  /** The scan reads a run of hex digits that ends the input, or that a
      character other than a token character ends, as its value when it fits
      in 64 bits. */
  lemma ScanStopsAtNonDigit(a: string, b: string)
    requires 0 < |a| && AllHex(a) && HexValue(a) < Uint64Modulus
    requires b == "" || !TokenChar(b[0])
    ensures ScanHexUint64(a + b) == HexValue(a)
  {
    var t := SkipSpace(a + b);
    assert (a + b)[0] == a[0];
    assert t == a + b;
    var n := TokenLength(t);
    assert n == |a| by {
      assert forall i :: 0 <= i < |a| ==> t[i] == a[i];
      assert |a| < |t| ==> t[|a|] == b[0];
    }
    assert t[..n] == a;
  }

  /** Spaces other than the newline before the number are skipped. */
  lemma ScanSkipsSpace(c: char, s: string)
    requires ScanSpace(c)
    ensures ScanHexUint64([c] + s) == ScanHexUint64(s)
  {
    assert ([c] + s)[1..] == s;
  }

  /** A newline where the number should start makes the scan fail. */
  lemma ScanNewlineFails(s: string)
    ensures ScanHexUint64("\n" + s) == 0
  {
  }

  /** A '_' inside the run of digits makes the scan fail. */
  lemma ScanUnderscoreFails(a: string, b: string)
    requires AllHex(a)
    ensures ScanHexUint64(a + "_" + b) == 0
  {
    var s := a + "_" + b;
    assert s[|a|] == '_';
    assert s[0] == if |a| > 0 then a[0] else '_';
    var t := SkipSpace(s);
    assert t == s;
    var n := TokenLength(t);
    if n <= |a| {
      assert n < |t| && TokenChar(t[n]);
    }
    assert t[..n][|a|] == '_';
  }

  /** A value the uint64 cannot hold makes the scan fail. */
  lemma ScanOverflowFails(a: string)
    requires 0 < |a| && AllHex(a) && HexValue(a) >= Uint64Modulus
    ensures ScanHexUint64(a) == 0
  {
    var t := SkipSpace(a);
    assert t == a;
    var n := TokenLength(a);
    assert n == |a|;
    assert a[..n] == a;
  }

  /** nextWALName: keep the first 16 characters, read the rest as %X, add one
      with uint64 wrap-around and print it as %08X. */
  function NextWalName(name: string): (r: string)
    requires |name| >= 16
    ensures |r| >= 24 && r[..16] == name[..16] && AllUpperHex(r[16..])
    ensures r[16..] == NextSuffix(name[16..])
  {
    name[..16] + NextSuffix(name[16..])
  }

  /** The segment part of nextWALName: the scanned value plus one, modulo
      2^64, printed as at least 8 uppercase hex digits. */
  function NextSuffix(suffix: string): (r: string)
    ensures |r| >= 8 && AllUpperHex(r) && AllHex(r)
    ensures HexValue(r) == (ScanHexUint64(suffix) + 1) % Uint64Modulus
  {
    var next := (ScanHexUint64(suffix) + 1) % Uint64Modulus;
    PadZerosValue(FormatHex(next, true), 8);
    PadZeros(FormatHex(next, true), 8)
  }

  /** Eight or fewer hex digits scan as their value. */
  lemma ScanAllHex(s: string)
    requires AllHex(s) && |s| <= 8
    ensures ScanHexUint64(s) == HexValue(s) < 0x1_0000_0000
  {
    if |s| > 0 {
      HexValueBound(s);
      Pow16Monotone(|s|, 8);
      Pow16Eight();
      ScanStopsAtNonDigit(s, "");
      assert s + "" == s;
    }
  }

  lemma {:induction false} Pow16Monotone(m: nat, n: nat)
    requires m <= n
    ensures Pow16(m) <= Pow16(n)
    decreases n - m
  {
    if m < n {
      Pow16Monotone(m + 1, n);
    }
  }

  /** For a 24-character name the successor's last 8 characters name the next
      segment number, unless the counter is already at FFFFFFFF. */
  lemma NextWalNameIncrements(name: string)
    requires |name| == 24 && AllHex(name[16..]) && HexValue(name[16..]) < 0xFFFF_FFFF
    ensures |NextWalName(name)| == 24
    ensures NextWalName(name)[..16] == name[..16]
    ensures HexValue(NextWalName(name)[16..]) == HexValue(name[16..]) + 1
  {
    var s := name[16..];
    ScanAllHex(s);
    var v := HexValue(s) + 1;
    assert (ScanHexUint64(s) + 1) % Uint64Modulus == v;
    Hex8(v);
    assert NextSuffix(s) == PadZeros(FormatHex(v, true), 8);
  }

  /** Spaces before the segment number do not change the successor. */
  lemma NextSuffixSkipsSpace(c: char, suffix: string)
    requires ScanSpace(c)
    ensures NextSuffix([c] + suffix) == NextSuffix(suffix)
  {
    ScanSkipsSpace(c, suffix);
  }

  /** A segment part that the scan cannot read continues at segment 1. */
  lemma NextSuffixAfterFailedScan(a: string, b: string)
    requires AllHex(a)
    ensures HexValue(NextSuffix("\n" + b)) == 1
    ensures HexValue(NextSuffix(a + "_" + b)) == 1
  {
    ScanNewlineFails(b);
    ScanUnderscoreFails(a, b);
  }

  /** No 24-character name is its own successor. */
  lemma NextWalNameDiffers(name: string)
    requires |name| == 24
    ensures NextWalName(name) != name
  {
    var s := name[16..];
    var p := NextSuffix(s);
    if AllHex(s) {
      ScanAllHex(s);
      assert HexValue(p) != HexValue(s);
    } else {
      var k :| 0 <= k < |s| && !IsHexDigit(s[k]);
      assert IsHexDigit(p[k]);
    }
  }

  /** strconv.ParseInt(s, 16, 64) with the error ignored: an optional sign and
      one or more hex digits; anything else is a syntax error and gives 0.
      (For inputs of at most 8 characters no range error can occur.) */
  function ParseTimeline(s: string): (tl: int)
    requires |s| <= 8
    ensures AllHex(s) && |s| > 0 ==> tl == HexValue(s)
    ensures !AllHex(s) && !(|s| > 1 && (s[0] == '+' || s[0] == '-')) ==> tl == 0
  {
    if |s| > 1 && (s[0] == '+' || s[0] == '-') && AllHex(s[1..]) then
      (if s[0] == '-' then -(HexValue(s[1..]) as int) else HexValue(s[1..]))
    else if |s| > 0 && AllHex(s) then HexValue(s)
    else 0
  }

  /** A timeline printed as %08X reads back as itself. */
  lemma TimelineRoundTrip(tl: nat)
    requires tl < 0x1_0000_0000
    ensures |PadZeros(FormatHex(tl, true), 8)| == 8
    ensures ParseTimeline(PadZeros(FormatHex(tl, true), 8)) == tl
  {
    Hex8(tl);
  }

  /** The successor of a segment keeps its timeline. */
  lemma NextWalNameKeepsTimeline(name: string)
    requires |name| >= 16
    ensures ParseTimeline(NextWalName(name)[..8]) == ParseTimeline(name[..8])
  {
    assert NextWalName(name)[..8] == NextWalName(name)[..16][..8];
    assert name[..8] == name[..16][..8];
  }
}
