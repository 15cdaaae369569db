/** The byte codecs of the passkey edge function
    (volumes/functions/passkey-auth/index.ts): public keys as lower-case hex
    behind a `\x` prefix, user ids as unpadded base64url. */
module Passkey {

  import opened Wrappers
  import opened Strings
  import opened Hex

  newtype byte = x: int | 0 <= x < 256

  // ----- uint8ArrayToHex (lines 53-55) -----

  /** `b.toString(16).padStart(2, '0')`. */
  function ByteHex(b: byte): (r: string)
    ensures |r| == 2 && AllHex(r) && HexValue(r) == b as int
    ensures forall i :: 0 <= i < 2 ==> IsLowerHexDigit(r[i])
  {
    var digits := FormatHex(b as nat, false);
    FormatHexWidth(b as nat, false, 2);
    PadZerosValue(digits, 2);
    var r := PadZeros(digits, 2);
    assert forall i :: 0 <= i < |r| ==> IsLowerHexDigit(r[i]) by {
      if |digits| < 2 {
        forall i | 0 <= i < |r| ensures IsLowerHexDigit(r[i]) {
          if i >= 2 - |digits| {
            assert r[i] == digits[i - (2 - |digits|)];
          }
        }
      }
    }
    r
  }

  /** The bytes written as hex, two characters each, in order. */
  function BytesToHex(bytes: seq<byte>): (r: string)
    ensures |r| == 2 * |bytes|
    ensures forall i :: 0 <= i < |r| ==> IsLowerHexDigit(r[i])
    decreases |bytes|
  {
    if |bytes| == 0 then ""
    else
      var init := BytesToHex(bytes[..|bytes| - 1]);
      var last := ByteHex(bytes[|bytes| - 1]);
      assert forall i :: 0 <= i < 2 ==> (init + last)[|init| + i] == last[i];
      init + last
  }

  /** Characters 2k and 2k+1 of the hex string spell byte k. */
  lemma {:induction false} BytesToHexPair(bytes: seq<byte>, k: nat)
    requires k < |bytes|
    ensures BytesToHex(bytes)[2 * k..2 * k + 2] == ByteHex(bytes[k])
    decreases |bytes|
  {
    var init := bytes[..|bytes| - 1];
    var head := BytesToHex(init);
    var last := ByteHex(bytes[|bytes| - 1]);
    assert BytesToHex(bytes) == head + last;
    if k < |bytes| - 1 {
      BytesToHexPair(init, k);
      SliceLeft(head, last, 2 * k, 2 * k + 2);
    } else {
      SliceRight(head, last, 2 * k, 2 * k + 2);
    }
  }

  lemma SliceLeft(a: string, b: string, i: nat, j: nat)
    requires i <= j <= |a|
    ensures (a + b)[i..j] == a[i..j]
  {
  }

  lemma SliceRight(a: string, b: string, i: nat, j: nat)
    requires i == |a| && j == |a| + |b|
    ensures (a + b)[i..j] == b
  {
  }

  // ----- hexToUint8Array (lines 57-63) -----

  /** The characters JavaScript's parseInt skips before a number: white
      space and line terminators. */
  predicate JsSpace(c: char) {
    c == '\t' || c == '\n' || c == '\U{B}' || c == '\U{C}' || c == '\r' || c == ' '
    || c == '\U{A0}' || c == '\U{1680}' || ('\U{2000}' <= c <= '\U{200A}')
    || c == '\U{2028}' || c == '\U{2029}' || c == '\U{202F}' || c == '\U{205F}'
    || c == '\U{3000}' || c == '\U{FEFF}'
  }

  /** `Number.parseInt(s, 16)`: leading white space is skipped, then an
      optional sign and an optional 0x/0X, then the longest run of hex
      digits is read; with no digit the result is NaN (None). */
  function ParseIntHex(s: string): Option<int>
    decreases |s|
  {
    if |s| > 0 && JsSpace(s[0]) then ParseIntHex(s[1..]) else ParseSignedHex(s)
  }

  /** parseInt after the white space: sign, 0x, digits. */
  function ParseSignedHex(t: string): Option<int> {
    var neg := |t| > 0 && t[0] == '-';
    var u := if |t| > 0 && (t[0] == '-' || t[0] == '+') then t[1..] else t;
    var w := if HasPrefix(u, "0x") || HasPrefix(u, "0X") then u[2..] else u;
    var n := HexRunLength(w);
    if n == 0 then None
    else if neg then Some(-(HexValue(w[..n]) as int))
    else Some(HexValue(w[..n]))
  }

  /** Storing a number into a Uint8Array: NaN becomes 0, anything else is
      taken modulo 256. */
  function ToUint8(r: Option<int>): byte {
    match r
    case None => 0
    case Some(v) => (v % 256) as byte
  }

  /** The bytes hexToUint8Array returns: one per whole pair of characters,
      each the parse of its pair. */
  function HexBytes(hex: string): (bytes: seq<byte>)
    ensures |bytes| == |hex| / 2
  {
    seq(|hex| / 2, k requires 0 <= k < |hex| / 2 => ToUint8(ParseIntHex(hex[2 * k..2 * k + 2])))
  }

  /** hexToUint8Array, filling a fresh array of length |hex| / 2 (an odd
      length is rounded down). `substring` stops at the end of the string,
      and a write past the end of a typed array is dropped. */
  method HexToUint8Array(hex: string) returns (bytes: array<byte>)
    ensures fresh(bytes) && bytes[..] == HexBytes(hex)
  {
    bytes := new byte[|hex| / 2];
    assert 2 * bytes.Length <= |hex| <= 2 * bytes.Length + 1;
    var i, j := 0, 0;  // j is i / 2, the index a write lands on
    while i < |hex|
      invariant i == 2 * j && 0 <= i <= |hex| + 1
      invariant forall k :: 0 <= k < bytes.Length && k < j ==> bytes[k] == HexBytes(hex)[k]
    {
      var piece := hex[i..if i + 2 <= |hex| then i + 2 else |hex|];
      var v := ToUint8(ParseIntHex(piece));
      if j < bytes.Length {
        PieceByte(hex, j, piece);
        bytes[j] := v;
      }
      i, j := i + 2, j + 1;
    }
  }

  /** The pair starting at character 2 * k parses to byte k of HexBytes. */
  lemma PieceByte(hex: string, k: nat, piece: string)
    requires 2 * k + 2 <= |hex| && piece == hex[2 * k..2 * k + 2]
    ensures ToUint8(ParseIntHex(piece)) == HexBytes(hex)[k]
  {
  }

  /** Two lower-case hex digits parse to the byte they spell. */
  lemma ParseByteHex(b: byte)
    ensures ParseIntHex(ByteHex(b)) == Some(b as int)
  {
    var s := ByteHex(b);
    assert !JsSpace(s[0]);
    assert s[1] != 'x' && s[1] != 'X';
    HexRunLengthAll(s);
    assert s[..2] == s;
  }

  lemma ToUint8Byte(b: byte)
    ensures ToUint8(Some(b as int)) == b
  {
  }

  lemma HexBytesAt(bytes: seq<byte>, k: nat)
    requires k < |bytes|
    ensures HexBytes(BytesToHex(bytes))[k] == bytes[k]
  {
    var hex := BytesToHex(bytes);
    BytesToHexPair(bytes, k);
    var pair := hex[2 * k..2 * k + 2];
    assert pair == ByteHex(bytes[k]);
    ParseByteHex(bytes[k]);
    assert ParseIntHex(pair) == Some(bytes[k] as int);
    ToUint8Byte(bytes[k]);
    assert HexBytes(hex)[k] == ToUint8(ParseIntHex(pair));
  }

  /** Hex-decoding the hex of some bytes gives the bytes back. */
  lemma HexRoundTrip(bytes: seq<byte>)
    ensures HexBytes(BytesToHex(bytes)) == bytes
  {
    forall k | 0 <= k < |bytes| ensures HexBytes(BytesToHex(bytes))[k] == bytes[k] {
      HexBytesAt(bytes, k);
    }
  }

  // ----- the stored public key (lines 171, 305-306) -----

  /** The two characters backslash and x. */
  const KeyPrefix := "\\x"

  /** What registration stores for a public key. */
  function StoredKey(publicKey: seq<byte>): string {
    KeyPrefix + BytesToHex(publicKey)
  }

  /** What authentication reads back: the first `\x` removed, then hex-decoded. */
  function ReadKey(stored: string): seq<byte> {
    HexBytes(ReplaceFirst(stored, KeyPrefix, ""))
  }

  /** Removing the prefix gives back exactly the hex that was stored. */
  lemma PrefixRoundTrip(hex: string)
    ensures ReplaceFirst(KeyPrefix + hex, KeyPrefix, "") == hex
  {
    var s := KeyPrefix + hex;
    assert HasPrefix(s, KeyPrefix);
    assert IndexOf(s, KeyPrefix) == Some(0);
    assert s[2..] == hex;
  }

  /** The key read at authentication is the key stored at registration. */
  lemma StoredKeyRoundTrip(publicKey: seq<byte>)
    ensures ReadKey(StoredKey(publicKey)) == publicKey
  {
    PrefixRoundTrip(BytesToHex(publicKey));
    HexRoundTrip(publicKey);
  }

  // ----- uint8ArrayToBase64Url (lines 48-51) -----

  /** The alphabet of section 4 of RFC 4648. */
  function StdChar(v: nat): char
    requires v < 64
  {
    if v < 26 then ('A' as int + v) as char
    else if v < 52 then ('a' as int + v - 26) as char
    else if v < 62 then ('0' as int + v - 52) as char
    else if v == 62 then '+'
    else '/'
  }

  /** The four 6-bit values of the 24 bits of a group of three bytes (a
      missing byte counts as zero). */
  function Sextet0(x0: byte): (v: nat) ensures v < 64 { x0 as nat / 4 }
  function Sextet1(x0: byte, x1: byte): (v: nat) ensures v < 64 { (x0 as nat % 4) * 16 + x1 as nat / 16 }
  function Sextet2(x1: byte, x2: byte): (v: nat) ensures v < 64 { (x1 as nat % 16) * 4 + x2 as nat / 64 }
  function Sextet3(x2: byte): (v: nat) ensures v < 64 { x2 as nat % 64 }

  /** `btoa(String.fromCharCode(...bytes))`: base64 with '=' padding, three
      bytes to four characters. */
  function Base64(b: seq<byte>): string
    decreases |b|
  {
    if |b| == 0 then ""
    else if |b| == 1 then
      [StdChar(Sextet0(b[0])), StdChar(Sextet1(b[0], 0)), '=', '=']
    else if |b| == 2 then
      [StdChar(Sextet0(b[0])), StdChar(Sextet1(b[0], b[1])), StdChar(Sextet2(b[1], 0)), '=']
    else StdGroup(b[0], b[1], b[2]) + Base64(b[3..])
  }

  /** The four characters of a full group of three bytes. */
  function StdGroup(x0: byte, x1: byte, x2: byte): string {
    [StdChar(Sextet0(x0)), StdChar(Sextet1(x0, x1)), StdChar(Sextet2(x1, x2)), StdChar(Sextet3(x2))]
  }

  function UrlChar(c: char): char {
    if c == '+' then '-' else if c == '/' then '_' else c
  }

  /** `.replace(/\+/g, '-').replace(/\//g, '_')`. */
  function ToUrlChars(s: string): (r: string)
    ensures |r| == |s|
  {
    seq(|s|, i requires 0 <= i < |s| => UrlChar(s[i]))
  }

  predicate IsPad(c: char) {
    c == '='
  }

  /** uint8ArrayToBase64Url: the final `.replace(/=+$/, '')` drops the
      trailing run of '='. */
  function Base64Url(b: seq<byte>): string {
    TrimRight(ToUrlChars(Base64(b)), IsPad)
  }

  /** The base64url alphabet of section 5 of RFC 4648. */
  function UrlAlphabet(v: nat): (c: char)
    requires v < 64
    ensures IsUrlChar(c)
  {
    UrlChar(StdChar(v))
  }

  predicate IsUrlChar(c: char) {
    ('A' <= c <= 'Z') || ('a' <= c <= 'z') || ('0' <= c <= '9') || c == '-' || c == '_'
  }

  /** Unpadded base64url written directly: the reference the replace chain
      is compared with. */
  function Unpadded(b: seq<byte>): (r: string)
    ensures |r| == 4 * (|b| / 3) + (if |b| % 3 == 0 then 0 else |b| % 3 + 1)
    ensures forall i :: 0 <= i < |r| ==> IsUrlChar(r[i])
    decreases |b|
  {
    if |b| == 0 then ""
    else if |b| == 1 then
      [UrlAlphabet(Sextet0(b[0])), UrlAlphabet(Sextet1(b[0], 0))]
    else if |b| == 2 then
      [UrlAlphabet(Sextet0(b[0])), UrlAlphabet(Sextet1(b[0], b[1])), UrlAlphabet(Sextet2(b[1], 0))]
    else
      var group := UrlGroup(b[0], b[1], b[2]);
      var rest := Unpadded(b[3..]);
      assert forall i :: 0 <= i < |rest| ==> (group + rest)[4 + i] == rest[i];
      group + rest
  }

  /** The four url-safe characters of a full group of three bytes. */
  function UrlGroup(x0: byte, x1: byte, x2: byte): (r: string)
    ensures |r| == 4 && forall i :: 0 <= i < 4 ==> IsUrlChar(r[i])
  {
    [UrlAlphabet(Sextet0(x0)), UrlAlphabet(Sextet1(x0, x1)), UrlAlphabet(Sextet2(x1, x2)), UrlAlphabet(Sextet3(x2))]
  }

  lemma ToUrlCharsAppend(x: string, y: string)
    ensures ToUrlChars(x + y) == ToUrlChars(x) + ToUrlChars(y)
  {
    assert forall i :: 0 <= i < |x + y| ==> ToUrlChars(x + y)[i] == (ToUrlChars(x) + ToUrlChars(y))[i] by {
      forall i | 0 <= i < |x + y| ensures ToUrlChars(x + y)[i] == (ToUrlChars(x) + ToUrlChars(y))[i] {
        if i < |x| {
          assert (x + y)[i] == x[i];
        } else {
          assert (x + y)[i] == y[i - |x|];
        }
      }
    }
  }

  lemma {:induction false} TrimRightAppend(x: string, y: string)
    requires |x| > 0 && !IsPad(x[|x| - 1])
    ensures TrimRight(x + y, IsPad) == x + TrimRight(y, IsPad)
    decreases |y|
  {
    if |y| == 0 {
      assert x + y == x;
    } else if IsPad(y[|y| - 1]) {
      assert (x + y)[..|x + y| - 1] == x + y[..|y| - 1];
      TrimRightAppend(x, y[..|y| - 1]);
    }
  }

  /** Trimming '=' from text that ends in something else, followed by
      up to two '=', leaves the text. */
  lemma TrimPadding(u: string, pad: string)
    requires |u| > 0 && !IsPad(u[|u| - 1])
    requires pad == "" || pad == "=" || pad == "=="
    ensures TrimRight(u + pad, IsPad) == u
  {
    assert TrimRight(u, IsPad) == u;
    if pad != "" {
      assert (u + pad)[..|u + pad| - 1] == u + pad[1..];
      if pad == "==" {
        assert (u + "=")[..|u|] == u;
      }
    }
  }

  /** A string is the url-safe form of another when it maps it character
      by character. */
  lemma UrlCharsOf(s: string, t: string)
    requires |s| == |t| && forall i :: 0 <= i < |s| ==> t[i] == UrlChar(s[i])
    ensures ToUrlChars(s) == t
  {
  }

  /** The url-safe characters of a padded last group are the unpadded
      ones followed by the padding. */
  lemma ShortUrlChars(b: seq<byte>)
    requires |b| == 1 || |b| == 2
    ensures ToUrlChars(Base64(b)) == Unpadded(b) + (if |b| == 1 then "==" else "=")
  {
    var s := Base64(b);
    var t := Unpadded(b) + (if |b| == 1 then "==" else "=");
    assert t[0] == UrlChar(s[0]) && t[1] == UrlChar(s[1]) && t[2] == UrlChar(s[2]) && t[3] == UrlChar(s[3]);
    UrlCharsOf(s, t);
  }

  /** A full group's characters made url-safe are its url-safe group. */
  lemma GroupUrl(x0: byte, x1: byte, x2: byte)
    ensures ToUrlChars(StdGroup(x0, x1, x2)) == UrlGroup(x0, x1, x2)
  {
    var s := StdGroup(x0, x1, x2);
    var t := UrlGroup(x0, x1, x2);
    assert t[0] == UrlChar(s[0]) && t[1] == UrlChar(s[1]) && t[2] == UrlChar(s[2]) && t[3] == UrlChar(s[3]);
    UrlCharsOf(s, t);
  }

  /** The url-safe characters of a full group come before those of the
      rest. */
  lemma GroupUrlChars(b: seq<byte>)
    requires |b| >= 3
    ensures ToUrlChars(Base64(b)) == UrlGroup(b[0], b[1], b[2]) + ToUrlChars(Base64(b[3..]))
  {
    ToUrlCharsAppend(StdGroup(b[0], b[1], b[2]), Base64(b[3..]));
    GroupUrl(b[0], b[1], b[2]);
  }

  /** The replace chain yields unpadded base64url. */
  lemma {:induction false} Base64UrlIsUnpadded(b: seq<byte>)
    ensures Base64Url(b) == Unpadded(b)
    decreases |b|
  {
    if |b| == 1 || |b| == 2 {
      ShortUrlChars(b);
      TrimPadding(Unpadded(b), if |b| == 1 then "==" else "=");
    } else if |b| >= 3 {
      GroupUrlChars(b);
      var x := UrlGroup(b[0], b[1], b[2]);
      assert IsUrlChar(x[3]);
      TrimRightAppend(x, ToUrlChars(Base64(b[3..])));
      Base64UrlIsUnpadded(b[3..]);
    }
  }

  /** The result of uint8ArrayToBase64Url never holds '+', '/' or '=', and
      has 4 characters per 3 bytes plus 2 or 3 for a last partial group. */
  lemma Base64UrlShape(b: seq<byte>)
    ensures var r := Base64Url(b);
      |r| == 4 * (|b| / 3) + (if |b| % 3 == 0 then 0 else |b| % 3 + 1)
      && forall i :: 0 <= i < |r| ==> r[i] != '+' && r[i] != '/' && r[i] != '='
  {
    Base64UrlIsUnpadded(b);
  }

  /** The value of a base64url character. */
  function UrlValue(c: char): (v: nat)
    requires IsUrlChar(c)
    ensures v < 64
  {
    if 'A' <= c <= 'Z' then c as int - 'A' as int
    else if 'a' <= c <= 'z' then c as int - 'a' as int + 26
    else if '0' <= c <= '9' then c as int - '0' as int + 52
    else if c == '-' then 62
    else 63
  }

  lemma UrlValueOf(v: nat)
    requires v < 64
    ensures UrlValue(UrlAlphabet(v)) == v
  {
  }

  /** The three bytes of four 6-bit values. */
  function Octet0(c0: nat, c1: nat): byte requires c0 < 64 && c1 < 64 { (c0 * 4 + c1 / 16) as byte }
  function Octet1(c1: nat, c2: nat): byte requires c1 < 64 && c2 < 64 { ((c1 % 16) * 16 + c2 / 4) as byte }
  function Octet2(c2: nat, c3: nat): byte requires c2 < 64 && c3 < 64 { ((c2 % 4) * 64 + c3) as byte }

  /** Decodes unpadded base64url; a lone last character or a character
      outside the alphabet is an error. */
  function DecodeUnpadded(s: string): Option<seq<byte>>
    decreases |s|
  {
    if |s| == 0 then Some([])
    else if |s| == 1 || !IsUrlChar(s[0]) || !IsUrlChar(s[1]) then None
    else
      var b0 := Octet0(UrlValue(s[0]), UrlValue(s[1]));
      if |s| == 2 then Some([b0])
      else if !IsUrlChar(s[2]) then None
      else
        var b1 := Octet1(UrlValue(s[1]), UrlValue(s[2]));
        if |s| == 3 then Some([b0, b1])
        else if !IsUrlChar(s[3]) then None
        else
          var b2 := Octet2(UrlValue(s[2]), UrlValue(s[3]));
          match DecodeUnpadded(s[4..])
          case None => None
          case Some(rest) => Some([b0, b1, b2] + rest)
  }

  /** Joining a high and a low part and splitting them again. */
  lemma Regroup16(x: nat, y: nat)
    requires y < 16
    ensures (x * 16 + y) / 16 == x && (x * 16 + y) % 16 == y
  {
  }

  lemma Regroup4(x: nat, y: nat)
    requires y < 4
    ensures (x * 4 + y) / 4 == x && (x * 4 + y) % 4 == y
  {
  }

  /** The 6-bit values of a group give back its three bytes. */
  lemma GroupRoundTrip(x0: byte, x1: byte, x2: byte)
    ensures Octet0(Sextet0(x0), Sextet1(x0, x1)) == x0
    ensures Octet1(Sextet1(x0, x1), Sextet2(x1, x2)) == x1
    ensures Octet2(Sextet2(x1, x2), Sextet3(x2)) == x2
  {
    Regroup16(x0 as nat % 4, x1 as nat / 16);
    Regroup4(x1 as nat % 16, x2 as nat / 64);
  }

  lemma {:induction false} DecodeUnpaddedRoundTrip(b: seq<byte>)
    ensures DecodeUnpadded(Unpadded(b)) == Some(b)
    decreases |b|
  {
    if |b| >= 3 {
      DecodeUnpaddedRoundTrip(b[3..]);
      FullGroupRoundTrip(b);
    } else if |b| > 0 {
      PartialGroupRoundTrip(b);
    }
  }

  lemma FullGroupRoundTrip(b: seq<byte>)
    requires |b| >= 3 && DecodeUnpadded(Unpadded(b[3..])) == Some(b[3..])
    ensures DecodeUnpadded(Unpadded(b)) == Some(b)
  {
    var s := Unpadded(b);
    assert s[4..] == Unpadded(b[3..]);
    GroupValues(s, b[0], b[1], b[2]);
    GroupRoundTrip(b[0], b[1], b[2]);
    DecodeFour(s);
    assert DecodeUnpadded(s) == Some([b[0], b[1], b[2]] + b[3..]);
    SplitThree(b);
  }

  lemma SplitThree(b: seq<byte>)
    requires |b| >= 3
    ensures [b[0], b[1], b[2]] + b[3..] == b
  {
  }

  /** The characters of Unpadded's group carry the group's 6-bit values. */
  lemma GroupValues(s: string, x0: byte, x1: byte, x2: byte)
    requires |s| >= 2 && s[0] == UrlAlphabet(Sextet0(x0)) && s[1] == UrlAlphabet(Sextet1(x0, x1))
    requires |s| >= 3 ==> s[2] == UrlAlphabet(Sextet2(x1, x2))
    requires |s| >= 4 ==> s[3] == UrlAlphabet(Sextet3(x2))
    ensures IsUrlChar(s[0]) && UrlValue(s[0]) == Sextet0(x0)
    ensures IsUrlChar(s[1]) && UrlValue(s[1]) == Sextet1(x0, x1)
    ensures |s| >= 3 ==> IsUrlChar(s[2]) && UrlValue(s[2]) == Sextet2(x1, x2)
    ensures |s| >= 4 ==> IsUrlChar(s[3]) && UrlValue(s[3]) == Sextet3(x2)
  {
    UrlValueOf(Sextet0(x0));
    UrlValueOf(Sextet1(x0, x1));
    UrlValueOf(Sextet2(x1, x2));
    UrlValueOf(Sextet3(x2));
  }

  lemma DecodeTwo(s: string)
    requires |s| == 2 && IsUrlChar(s[0]) && IsUrlChar(s[1])
    ensures DecodeUnpadded(s) == Some([Octet0(UrlValue(s[0]), UrlValue(s[1]))])
  {
  }

  lemma DecodeThree(s: string)
    requires |s| == 3 && IsUrlChar(s[0]) && IsUrlChar(s[1]) && IsUrlChar(s[2])
    ensures DecodeUnpadded(s)
            == Some([Octet0(UrlValue(s[0]), UrlValue(s[1])), Octet1(UrlValue(s[1]), UrlValue(s[2]))])
  {
  }

  lemma DecodeFour(s: string)
    requires |s| >= 4 && IsUrlChar(s[0]) && IsUrlChar(s[1]) && IsUrlChar(s[2]) && IsUrlChar(s[3])
    requires DecodeUnpadded(s[4..]).Some?
    ensures DecodeUnpadded(s)
            == Some([Octet0(UrlValue(s[0]), UrlValue(s[1])), Octet1(UrlValue(s[1]), UrlValue(s[2])),
                     Octet2(UrlValue(s[2]), UrlValue(s[3]))] + DecodeUnpadded(s[4..]).value)
  {
  }

  lemma PartialGroupRoundTrip(b: seq<byte>)
    requires 0 < |b| < 3
    ensures DecodeUnpadded(Unpadded(b)) == Some(b)
  {
    if |b| == 2 {
      TwoBytesRoundTrip(b);
    } else {
      OneByteRoundTrip(b);
    }
  }

  lemma TwoBytesRoundTrip(b: seq<byte>)
    requires |b| == 2
    ensures DecodeUnpadded(Unpadded(b)) == Some(b)
  {
    var s := Unpadded(b);
    GroupValues(s, b[0], b[1], 0);
    GroupRoundTrip(b[0], b[1], 0);
    DecodeThree(s);
    assert DecodeUnpadded(s) == Some([b[0], b[1]]);
    SplitTwo(b);
  }

  lemma OneByteRoundTrip(b: seq<byte>)
    requires |b| == 1
    ensures DecodeUnpadded(Unpadded(b)) == Some(b)
  {
    var s := Unpadded(b);
    GroupValues(s, b[0], 0, 0);
    GroupRoundTrip(b[0], 0, 0);
    DecodeTwo(s);
    assert DecodeUnpadded(s) == Some([b[0]]);
    SplitOne(b);
  }

  lemma SplitTwo(b: seq<byte>)
    requires |b| == 2
    ensures [b[0], b[1]] == b
  {
  }

  lemma SplitOne(b: seq<byte>)
    requires |b| == 1
    ensures [b[0]] == b
  {
  }

  /** The text of a base64url id decodes to the bytes it was made from. */
  lemma Base64UrlRoundTrip(b: seq<byte>)
    ensures DecodeUnpadded(Base64Url(b)) == Some(b)
  {
    Base64UrlIsUnpadded(b);
    DecodeUnpaddedRoundTrip(b);
  }

  // ----- generateWebAuthnUserId (lines 65-69) -----

  /** The user id made from the 32 random bytes; `random` stands for what
      crypto.getRandomValues fills in. */
  function GenerateWebAuthnUserId(random: seq<byte>): (id: string)
    requires |random| == 32
    ensures |id| == 43
    ensures DecodeUnpadded(id) == Some(random)
  {
    Base64UrlShape(random);
    Base64UrlRoundTrip(random);
    Base64Url(random)
  }
}
