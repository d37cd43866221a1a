/** The integer half of the hex colour initializer: the string is trimmed of
    non-alphanumeric characters at both ends, its leading hex digits are scanned
    into a number, and the trimmed length (3, 6 or 8) picks how that number splits
    into alpha, red, green and blue. Characters are ASCII here. */
module AppColors {

  /** Alpha, red, green and blue, each meant to lie in 0..255. */
  datatype ARGB = ARGB(a: nat, r: nat, g: nat, b: nat)

  predicate InByteRange(c: ARGB)
  {
    c.a < 256 && c.r < 256 && c.g < 256 && c.b < 256
  }

  predicate IsAlphanumeric(ch: char)
  {
    ('0' <= ch <= '9') || ('a' <= ch <= 'z') || ('A' <= ch <= 'Z')
  }

  predicate IsHexDigit(ch: char)
  {
    ('0' <= ch <= '9') || ('a' <= ch <= 'f') || ('A' <= ch <= 'F')
  }

  function DigitValue(ch: char): (n: nat)
    requires IsHexDigit(ch)
    ensures n < 16
  {
    if '0' <= ch <= '9' then ch as int - '0' as int
    else if 'a' <= ch <= 'f' then ch as int - 'a' as int + 10
    else ch as int - 'A' as int + 10
  }

  function Pow16(n: nat): (p: nat)
    ensures p >= 1
  {
    if n == 0 then 1 else 16 * Pow16(n - 1)
  }

  // ---------------------------------------------------------------------------
  // Trimming
  // ---------------------------------------------------------------------------

  /** The first position at or after `i` holding an alphanumeric character, or `|s|`. */
  function TrimFrom(s: string, i: nat): (lo: nat)
    requires i <= |s|
    ensures i <= lo <= |s|
    ensures forall k :: i <= k < lo ==> !IsAlphanumeric(s[k])
    ensures lo < |s| ==> IsAlphanumeric(s[lo])
    decreases |s| - i
  {
    if i == |s| || IsAlphanumeric(s[i]) then i else TrimFrom(s, i + 1)
  }

  /** The end, at most `hi` and at least `lo`, after dropping trailing non-alphanumeric characters. */
  function TrimTo(s: string, lo: nat, hi: nat): (r: nat)
    requires lo <= hi <= |s|
    ensures lo <= r <= hi
    ensures forall k :: r <= k < hi ==> !IsAlphanumeric(s[k])
    ensures r > lo ==> IsAlphanumeric(s[r - 1])
  {
    if hi == lo || IsAlphanumeric(s[hi - 1]) then hi else TrimTo(s, lo, hi - 1)
  }

  /** Where `Trim` starts cutting: after the leading non-alphanumeric characters. */
  function TrimOffset(s: string): (lo: nat)
    ensures lo <= |s|
  {
    TrimFrom(s, 0)
  }

  /** `trimmingCharacters(in: CharacterSet.alphanumerics.inverted)`: the slice of
      `s` from `TrimOffset(s)` that starts and ends with an alphanumeric character,
      with only non-alphanumeric characters outside it; interior characters are kept. */
  function Trim(s: string): (r: string)
    ensures TrimOffset(s) + |r| <= |s| && r == s[TrimOffset(s)..TrimOffset(s) + |r|]
    ensures forall k :: 0 <= k < TrimOffset(s) ==> !IsAlphanumeric(s[k])
    ensures forall k :: TrimOffset(s) + |r| <= k < |s| ==> !IsAlphanumeric(s[k])
    ensures r != [] ==> IsAlphanumeric(r[0]) && IsAlphanumeric(r[|r| - 1])
    ensures r == [] <==> forall k :: 0 <= k < |s| ==> !IsAlphanumeric(s[k])
  {
    var lo := TrimOffset(s);
    s[lo..TrimTo(s, lo, |s|)]
  }

  /** Trimming a string made of alphanumeric characters keeps it whole. */
  lemma TrimAlphanumeric(s: string)
    requires forall k :: 0 <= k < |s| ==> IsAlphanumeric(s[k])
    ensures Trim(s) == s
  {
  }

  /** Trimming twice is trimming once. */
  lemma TrimIdempotent(s: string)
    ensures Trim(Trim(s)) == Trim(s)
  {
  }

  // ---------------------------------------------------------------------------
  // Scanning hex digits
  // ---------------------------------------------------------------------------

  /** How many hex digits the string starts with. */
  function HexRun(s: string): (n: nat)
    ensures n <= |s|
    ensures forall k :: 0 <= k < n ==> IsHexDigit(s[k])
    ensures n < |s| ==> !IsHexDigit(s[n])
  {
    if s == [] || !IsHexDigit(s[0]) then 0 else 1 + HexRun(s[1..])
  }

  /** The number a string of hex digits denotes, most significant digit first. */
  function HexValue(digits: string): (v: nat)
    requires forall k :: 0 <= k < |digits| ==> IsHexDigit(digits[k])
    ensures v < Pow16(|digits|)
  {
    if digits == [] then 0
    else HexValue(digits[..|digits| - 1]) * 16 + DigitValue(digits[|digits| - 1])
  }

  /** What `scanHexInt64` leaves in its out-parameter: the value of the leading hex
      digits, and 0 when there are none. */
  function ScannedValue(s: string): (v: nat)
    ensures v < Pow16(HexRun(s))
    ensures HexRun(s) == 0 ==> v == 0
  {
    HexValue(s[..HexRun(s)])
  }

  /** `Scanner(string:).scanHexInt64(&int)`: read hex digits from the front while
      there are any, accumulating `int = int * 16 + digit`; the result says whether
      any digit was read. */
  method ScanHex(s: string) returns (found: bool, value: nat)
    ensures value == ScannedValue(s)
    ensures found <==> HexRun(s) > 0
  {
    value := 0;
    var i := 0;
    while i < |s| && IsHexDigit(s[i])
      invariant 0 <= i <= HexRun(s)
      invariant value == HexValue(s[..i])
    {
      assert s[..i + 1][..i] == s[..i];
      value := value * 16 + DigitValue(s[i]);
      i := i + 1;
    }
    found := i > 0;
  }

  // ---------------------------------------------------------------------------
  // Splitting into components
  // ---------------------------------------------------------------------------

  /** The length switch of `Color(hex:)` on the trimmed length and the scanned
      number (`>> k` is division by 2^k and `& m` a remainder, all on naturals). */
  function Split(count: nat, v: nat): (c: ARGB)
    ensures count !in {3, 6, 8} ==> c == ARGB(255, 0, 0, 0)
    ensures count == 3 ==> c.a == 255 && c.r % 17 == 0 && c.g % 17 == 0 && c.b % 17 == 0
    ensures count == 6 || count == 3 ==> c.a == 255
  {
    if count == 3 then ARGB(255, (v / 256) * 17, (v / 16 % 16) * 17, (v % 16) * 17)
    else if count == 6 then ARGB(255, v / 65536, v / 256 % 256, v % 256)
    else if count == 8 then ARGB(v / 16777216, v / 65536 % 256, v / 256 % 256, v % 256)
    else ARGB(255, 0, 0, 0)
  }

  /** The integer components `Color(hex:)` computes for a string. */
  function Decode(hex: string): (c: ARGB)
    ensures InByteRange(c)
    ensures |Trim(hex)| !in {3, 6, 8} ==> c == ARGB(255, 0, 0, 0)
  {
    var t := Trim(hex);
    var v := ScannedValue(t);
    SplitInRange(|t|, v, HexRun(t));
    Split(|t|, v)
  }

  /** When no more digits were scanned than the trimmed length, every component is a byte. */
  lemma SplitInRange(count: nat, v: nat, digits: nat)
    requires digits <= count && v < Pow16(digits)
    ensures InByteRange(Split(count, v))
  {
    Pow16Monotone(digits, count);
    if count == 3 {
      assert Pow16(3) == 4096;
    } else if count == 6 {
      assert Pow16(6) == 16777216;
    } else if count == 8 {
      assert Pow16(8) == 4294967296;
    }
  }

  lemma {:induction false} Pow16Monotone(m: nat, n: nat)
    requires m <= n
    ensures Pow16(m) <= Pow16(n)
    decreases n
  {
    if m < n {
      Pow16Monotone(m, n - 1);
    }
  }

  /** `Color(hex:)`: trim, scan, split. */
  method ColorFromHex(hex: string) returns (c: ARGB)
    ensures c == Decode(hex)
    ensures InByteRange(c)
  {
    var t := Trim(hex);
    var _, value := ScanHex(t);
    c := Split(|t|, value);
  }

  // ---------------------------------------------------------------------------
  // Formatting, the partner of decoding
  // ---------------------------------------------------------------------------

  /** The lower-case hex digit of a nibble. */
  function HexChar(n: nat): (ch: char)
    requires n < 16
    ensures IsHexDigit(ch) && IsAlphanumeric(ch) && DigitValue(ch) == n
  {
    if n < 10 then ('0' as int + n) as char else ('a' as int + n - 10) as char
  }

  /** `v` written with exactly `n` hex digits, most significant first. */
  function HexDigits(v: nat, n: nat): (s: string)
    requires v < Pow16(n)
    ensures |s| == n
    ensures forall k :: 0 <= k < n ==> IsHexDigit(s[k]) && IsAlphanumeric(s[k])
  {
    if n == 0 then [] else HexDigits(v / 16, n - 1) + [HexChar(v % 16)]
  }

  /** Scanning digits written by `HexDigits` recovers the number. */
  lemma {:induction false} HexValueOfDigits(v: nat, n: nat)
    requires v < Pow16(n)
    ensures HexValue(HexDigits(v, n)) == v
    decreases n
  {
    if n > 0 {
      var s := HexDigits(v, n);
      HexValueOfDigits(v / 16, n - 1);
      assert s[..|s| - 1] == HexDigits(v / 16, n - 1);
    }
  }

  /** An `n`-digit hex string scans to its whole value. */
  lemma ScanAllDigits(s: string)
    requires forall k :: 0 <= k < |s| ==> IsHexDigit(s[k])
    ensures HexRun(s) == |s| && ScannedValue(s) == HexValue(s)
  {
    assert s[..|s|] == s;
  }

  /** Decoding `n` hex digits of `v` is splitting `v` by the length `n`. */
  lemma DecodeDigits(v: nat, n: nat)
    requires v < Pow16(n)
    ensures Decode(HexDigits(v, n)) == Split(n, v)
  {
    var s := HexDigits(v, n);
    TrimAlphanumeric(s);
    ScanAllDigits(s);
    HexValueOfDigits(v, n);
  }

  lemma MulAtLeast(k: int, d: nat)
    requires k >= 1
    ensures k * d >= d
  {
  }

  /** Euclidean division of `q * d + rem` by `d` gives back `q` and `rem`. */
  lemma DivPlus(q: nat, rem: nat, d: nat)
    requires rem < d
    ensures (q * d + rem) / d == q && (q * d + rem) % d == rem
  {
    var v := q * d + rem;
    var q', r' := v / d, v % d;
    assert v == q' * d + r';
    assert (q - q') * d == r' - rem;
    if q' < q {
      MulAtLeast(q - q', d);
    } else if q < q' {
      MulAtLeast(q' - q, d);
    }
  }

  /** At length 6 the number `rrggbb` splits into its three bytes. */
  lemma SplitRGB(r: nat, g: nat, b: nat)
    requires r < 256 && g < 256 && b < 256
    ensures Split(6, r * 65536 + g * 256 + b) == ARGB(255, r, g, b)
  {
    var v := r * 65536 + g * 256 + b;
    DivPlus(r, g * 256 + b, 65536);
    DivPlus(r * 256 + g, b, 256);
    DivPlus(r, g, 256);
  }

  /** At length 8 the number `aarrggbb` splits into its four bytes. */
  lemma SplitARGB(a: nat, r: nat, g: nat, b: nat)
    requires a < 256 && r < 256 && g < 256 && b < 256
    ensures Split(8, a * 16777216 + r * 65536 + g * 256 + b) == ARGB(a, r, g, b)
  {
    DivPlus(a, r * 65536 + g * 256 + b, 16777216);
    DivPlus(a * 256 + r, g * 256 + b, 65536);
    DivPlus(a, r, 256);
    DivPlus(a * 65536 + r * 256 + g, b, 256);
    DivPlus(a * 256 + r, g, 256);
  }

  /** At length 3 the number `rgb` splits into its nibbles times 17. */
  lemma SplitShortRGB(r: nat, g: nat, b: nat)
    requires r < 16 && g < 16 && b < 16
    ensures Split(3, r * 256 + g * 16 + b) == ARGB(255, r * 17, g * 17, b * 17)
  {
    DivPlus(r, g * 16 + b, 256);
    DivPlus(r * 16 + g, b, 16);
    DivPlus(r, g, 16);
  }

  /** Six digits `rrggbb` decode to an opaque colour with those bytes. */
  lemma DecodeRGB(r: nat, g: nat, b: nat)
    requires r < 256 && g < 256 && b < 256
    ensures r * 65536 + g * 256 + b < Pow16(6)
    ensures Decode(HexDigits(r * 65536 + g * 256 + b, 6)) == ARGB(255, r, g, b)
  {
    assert Pow16(6) == 16777216;
    DecodeDigits(r * 65536 + g * 256 + b, 6);
    SplitRGB(r, g, b);
  }

  /** Eight digits `aarrggbb` decode to those four bytes. */
  lemma DecodeARGB(a: nat, r: nat, g: nat, b: nat)
    requires a < 256 && r < 256 && g < 256 && b < 256
    ensures a * 16777216 + r * 65536 + g * 256 + b < Pow16(8)
    ensures Decode(HexDigits(a * 16777216 + r * 65536 + g * 256 + b, 8)) == ARGB(a, r, g, b)
  {
    assert Pow16(8) == 4294967296;
    DecodeDigits(a * 16777216 + r * 65536 + g * 256 + b, 8);
    SplitARGB(a, r, g, b);
  }

  /** Three digits `rgb` decode to each nibble times 17, so `f` is 255 and `0` is 0. */
  lemma DecodeShortRGB(r: nat, g: nat, b: nat)
    requires r < 16 && g < 16 && b < 16
    ensures r * 256 + g * 16 + b < Pow16(3)
    ensures Decode(HexDigits(r * 256 + g * 16 + b, 3)) == ARGB(255, r * 17, g * 17, b * 17)
  {
    assert Pow16(3) == 4096;
    DecodeDigits(r * 256 + g * 16 + b, 3);
    SplitShortRGB(r, g, b);
  }

  lemma {:induction false} TrimFromShift(c: char, s: string, i: nat)
    requires i <= |s|
    ensures TrimFrom([c] + s, i + 1) == TrimFrom(s, i) + 1
    decreases |s| - i
  {
    var t := [c] + s;
    assert t[i + 1..] == s[i..];
    if i < |s| {
      assert t[i + 1] == s[i];
      if !IsAlphanumeric(s[i]) {
        TrimFromShift(c, s, i + 1);
      }
    }
  }

  lemma {:induction false} TrimToShift(c: char, s: string, lo: nat, hi: nat)
    requires lo <= hi <= |s|
    ensures TrimTo([c] + s, lo + 1, hi + 1) == TrimTo(s, lo, hi) + 1
  {
    var t := [c] + s;
    if hi > lo {
      assert t[hi] == s[hi - 1];
      if !IsAlphanumeric(s[hi - 1]) {
        TrimToShift(c, s, lo, hi - 1);
      }
    }
  }

  /** A leading character that is not alphanumeric, such as `#`, is trimmed away. */
  lemma TrimDropsLeading(c: char, s: string)
    requires !IsAlphanumeric(c)
    ensures Trim([c] + s) == Trim(s)
  {
    var t := [c] + s;
    var lo := TrimOffset(s);
    var hi := TrimTo(s, lo, |s|);
    TrimOffsetShift(c, s);
    TrimToShift(c, s, lo, |s|);
    assert t[lo + 1..hi + 1] == s[lo..hi];
  }

  lemma TrimOffsetShift(c: char, s: string)
    requires !IsAlphanumeric(c)
    ensures TrimOffset([c] + s) == TrimOffset(s) + 1
  {
    var t := [c] + s;
    assert TrimFrom(t, 0) == TrimFrom(t, 1) by {
      assert t[0] == c;
    }
    TrimFromShift(c, s, 0);
  }

  /** So it does not change the colour. */
  lemma HashIgnored(c: char, s: string)
    requires !IsAlphanumeric(c)
    ensures Decode([c] + s) == Decode(s)
  {
    TrimDropsLeading(c, s);
  }

  // ---------------------------------------------------------------------------
  // The palette
  // ---------------------------------------------------------------------------

  const PrimaryBackground: ARGB := Decode("ae2d27")
  const SecondaryBackground: ARGB := Decode("dfb492")
  const TertiaryBackground: ARGB := Decode("ffc934")
  const AccentGreen: ARGB := Decode("1ed55f")
  const AccentYellow: ARGB := Decode("ffff03")
  const AccentRed: ARGB := Decode("eb262f")

  /** The byte two hex digits denote. */
  function ByteOf(hi: char, lo: char): (n: nat)
    requires IsHexDigit(hi) && IsHexDigit(lo)
    ensures n < 256
  {
    DigitValue(hi) * 16 + DigitValue(lo)
  }

  /** Six hex digits denote their three digit pairs as bytes, most significant first. */
  lemma HexValueSix(s: string)
    requires |s| == 6 && forall k :: 0 <= k < 6 ==> IsHexDigit(s[k])
    ensures HexValue(s) == ByteOf(s[0], s[1]) * 65536 + ByteOf(s[2], s[3]) * 256 + ByteOf(s[4], s[5])
  {
    var d0, d1, d2 := DigitValue(s[0]), DigitValue(s[1]), DigitValue(s[2]);
    var d3, d4, d5 := DigitValue(s[3]), DigitValue(s[4]), DigitValue(s[5]);
    assert s[..1][..0] == [];
    assert HexValue(s[..1]) == d0;
    assert s[..2][..1] == s[..1];
    assert HexValue(s[..2]) == d0 * 16 + d1;
    assert s[..3][..2] == s[..2];
    assert HexValue(s[..3]) == (d0 * 16 + d1) * 16 + d2;
    assert s[..4][..3] == s[..3];
    assert HexValue(s[..4]) == ((d0 * 16 + d1) * 16 + d2) * 16 + d3;
    assert s[..5][..4] == s[..4];
    assert HexValue(s[..5]) == (((d0 * 16 + d1) * 16 + d2) * 16 + d3) * 16 + d4;
    assert s[..5] == s[..|s| - 1];
  }

  /** Six hex digits decode to an opaque colour whose bytes are the digit pairs in order. */
  lemma DecodeSixDigits(s: string)
    requires |s| == 6 && forall k :: 0 <= k < 6 ==> IsHexDigit(s[k])
    ensures Decode(s) == ARGB(255, ByteOf(s[0], s[1]), ByteOf(s[2], s[3]), ByteOf(s[4], s[5]))
  {
    TrimAlphanumeric(s);
    ScanAllDigits(s);
    HexValueSix(s);
    SplitRGB(ByteOf(s[0], s[1]), ByteOf(s[2], s[3]), ByteOf(s[4], s[5]));
  }

  /** `ae2d27` is the opaque colour (174, 45, 39). */
  lemma PrimaryBackgroundComponents()
    ensures PrimaryBackground == ARGB(255, 174, 45, 39)
  {
    DecodeSixDigits("ae2d27");
  }

  /** `dfb492` is the opaque colour (223, 180, 146). */
  lemma SecondaryBackgroundComponents()
    ensures SecondaryBackground == ARGB(255, 223, 180, 146)
  {
    DecodeSixDigits("dfb492");
  }

  /** `ffc934` is the opaque colour (255, 201, 52). */
  lemma TertiaryBackgroundComponents()
    ensures TertiaryBackground == ARGB(255, 255, 201, 52)
  {
    DecodeSixDigits("ffc934");
  }

  /** `1ed55f` is the opaque colour (30, 213, 95). */
  lemma AccentGreenComponents()
    ensures AccentGreen == ARGB(255, 30, 213, 95)
  {
    DecodeSixDigits("1ed55f");
  }

  /** `ffff03` is the opaque colour (255, 255, 3). */
  lemma AccentYellowComponents()
    ensures AccentYellow == ARGB(255, 255, 255, 3)
  {
    DecodeSixDigits("ffff03");
  }

  /** `eb262f` is the opaque colour (235, 38, 47). */
  lemma AccentRedComponents()
    ensures AccentRed == ARGB(255, 235, 38, 47)
  {
    DecodeSixDigits("eb262f");
  }
}
