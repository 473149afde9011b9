/**
  One-time passwords: base32 secrets, HOTP truncation and the time window.

  The keyed hash is a parameter with 20-byte results, and so is the upper case of one
  character, which may be a string; only its values on ASCII characters are fixed.
 */
module Totp {
  import opened Arithmetic
  import opened Wrappers

  type Byte = b: nat | b < 256
  type Bit = b: nat | b < 2

  const ALPHABET := "ABCDEFGHIJKLMNOPQRSTUVWXYZ234567"

  // ---------------------------------------------------------------- bits

  /** The value of a bit string, most significant bit first. */
  function FromBits(bits: seq<Bit>): nat {
    if bits == [] then 0 else 2 * FromBits(bits[..|bits| - 1]) + bits[|bits| - 1]
  }

  /** The last `n` bits of a value. */
  function ToBits(v: nat, n: nat): (bits: seq<Bit>)
    ensures |bits| == n
  {
    if n == 0 then [] else ToBits(v / 2, n - 1) + [v % 2]
  }

  lemma {:induction false} FromBitsInvertsToBits(v: nat, n: nat)
    requires v < Pow2(n)
    ensures FromBits(ToBits(v, n)) == v
  {
    if n > 0 {
      FromBitsInvertsToBits(v / 2, n - 1);
      assert ToBits(v, n)[..n - 1] == ToBits(v / 2, n - 1);
    }
  }

  lemma {:induction false} ToBitsInvertsFromBits(bits: seq<Bit>)
    ensures FromBits(bits) < Pow2(|bits|) && ToBits(FromBits(bits), |bits|) == bits
  {
    if bits != [] { ToBitsInvertsFromBits(bits[..|bits| - 1]); }
  }

  // ---------------------------------------------------------------- base32

  /** The upper case of one character. */
  type UpperCasing = char -> string

  function AsciiUpper(c: char): char { if 'a' <= c <= 'z' then ((c as int) - 32) as char else c }

  ghost predicate StandardOnAscii(up: UpperCasing) { forall c: char :: c as int < 128 ==> up(c) == [AsciiUpper(c)] }

  /** `toUpperCase`. */
  function UpperCase(up: UpperCasing, s: string): string {
    if s == "" then "" else UpperCase(up, s[..|s| - 1]) + up(s[|s| - 1])
  }

  /** Position in the alphabet, if the character is in it. */
  function IndexOf(c: char): Option<nat> {
    if 'A' <= c <= 'Z' then Some((c as int) - ('A' as int))
    else if '2' <= c <= '7' then Some((c as int) - ('2' as int) + 26)
    else None
  }

  lemma AlphabetHasNoRepeats(v: nat)
    requires v < 32
    ensures IndexOf(ALPHABET[v]) == Some(v)
  {
    if v < 26 {
      assert ALPHABET[v] as int == ('A' as int) + v;
    } else {
      assert ALPHABET[v] as int == ('2' as int) + v - 26;
    }
  }

  /** `IndexOf` is the position of the character in the alphabet, the only one it has. */
  lemma IndexOfIsThePosition(c: char)
    ensures forall v :: 0 <= v < |ALPHABET| && ALPHABET[v] == c ==> IndexOf(c) == Some(v)
    ensures IndexOf(c).Some? ==> IndexOf(c).value < 32 && ALPHABET[IndexOf(c).value] == c
    ensures IndexOf(c).None? ==> c !in ALPHABET
  {
    forall v | 0 <= v < |ALPHABET| && ALPHABET[v] == c ensures IndexOf(c) == Some(v) { AlphabetHasNoRepeats(v); }
    if IndexOf(c).Some? { AlphabetHasNoRepeats(IndexOf(c).value); }
  }

  predicate IsSkipped(c: char) { c == '=' || c == '-' || c == ' ' || '\t' <= c <= '\r' }

  /** The alphabet positions in a text, leaving out the characters that carry nothing. */
  function Values(s: string): (vs: seq<nat>)
    ensures forall i :: 0 <= i < |vs| ==> vs[i] < 32
  {
    if s == "" then []
    else
      var rest := Values(s[..|s| - 1]);
      var v := IndexOf(s[|s| - 1]);
      if v.None? then rest else rest + [v.value]
  }

  function BitsOf(vs: seq<nat>, width: nat): seq<Bit> {
    if vs == [] then [] else BitsOf(vs[..|vs| - 1], width) + ToBits(vs[|vs| - 1], width)
  }

  /** Whole bytes from the front; a remainder of fewer than eight bits is dropped. */
  function Bytes(bits: seq<Bit>): (bytes: seq<Byte>)
    ensures |bytes| == |bits| / 8
  {
    if |bits| < 8 then []
    else
      ByteFromBits(bits[..8]);
      [FromBits(bits[..8])] + Bytes(bits[8..])
  }

  function Decode(up: UpperCasing, s: string): seq<Byte> { Bytes(BitsOf(Values(UpperCase(up, s)), 5)) }

  lemma Regroup<T>(a: seq<T>, b: seq<T>, c: seq<T>)
    ensures (a + b) + c == a + (b + c)
  {
  }

  lemma BitsOfOneMore(vs: seq<nat>, v: nat, width: nat)
    ensures BitsOf(vs + [v], width) == BitsOf(vs, width) + ToBits(v, width)
  {
    assert (vs + [v])[..|vs|] == vs;
  }

  lemma ByteFromBits(bits: seq<Bit>)
    requires |bits| == 8
    ensures FromBits(bits) < 256
  {
    ToBitsInvertsFromBits(bits);
    assert Pow2(8) == 256;
  }

  method CollectBits(clean: string) returns (bits: seq<Bit>)
    ensures bits == BitsOf(Values(clean), 5)
  {
    bits := [];
    for i := 0 to |clean|
      invariant bits == BitsOf(Values(clean[..i]), 5)
    {
      assert clean[..i + 1][..i] == clean[..i];
      if !IsSkipped(clean[i]) {
        var val := IndexOf(clean[i]);
        if val.Some? {
          BitsOfOneMore(Values(clean[..i]), val.value, 5);
          bits := bits + ToBits(val.value, 5);
        }
      }
    }
    assert clean[..|clean|] == clean;
  }

  lemma NextByte(bits: seq<Bit>, i: nat)
    requires i + 8 <= |bits|
    ensures FromBits(bits[i..i + 8]) < 256
    ensures Bytes(bits[i..]) == [FromBits(bits[i..i + 8])] + Bytes(bits[i + 8..])
  {
    ByteFromBits(bits[i..i + 8]);
    assert bits[i..][..8] == bits[i..i + 8] && bits[i..][8..] == bits[i + 8..];
  }

  method CollectBytes(bits: seq<Bit>) returns (bytes: seq<Byte>)
    ensures bytes == Bytes(bits)
  {
    bytes := [];
    var i := 0;
    while i + 8 <= |bits|
      invariant 0 <= i <= |bits|
      invariant Bytes(bits) == bytes + Bytes(bits[i..])
    {
      NextByte(bits, i);
      var next: seq<Byte> := [FromBits(bits[i..i + 8])];
      Regroup(bytes, next, Bytes(bits[i + 8..]));
      bytes := bytes + next;
      i := i + 8;
    }
  }

  method Base32ToBuffer(up: UpperCasing, base32: string) returns (bytes: seq<Byte>)
    ensures bytes == Decode(up, base32)
  {
    var bits := CollectBits(UpperCase(up, base32));
    bytes := CollectBytes(bits);
  }

  // ---------------------------------------------------------------- the encoder of RFC 4648, section 6

  function Zeros(n: nat): (z: seq<Bit>)
    ensures |z| == n
  {
    seq(n, _ => 0)
  }

  /** Groups of five bits as alphabet positions. */
  function Groups(bits: seq<Bit>): (vs: seq<nat>)
    requires |bits| % 5 == 0
    ensures forall i :: 0 <= i < |vs| ==> vs[i] < 32
  {
    if bits == [] then []
    else
      ToBitsInvertsFromBits(bits[|bits| - 5..]);
      assert Pow2(5) == 32;
      Groups(bits[..|bits| - 5]) + [FromBits(bits[|bits| - 5..])]
  }

  /** What is missing to the next multiple. */
  function Missing(n: nat, unit: nat): (k: nat)
    requires unit > 0
    ensures k < unit && (n + k) % unit == 0
  {
    MissingFills(n, unit);
    if n % unit == 0 then 0 else unit - n % unit
  }

  lemma MissingFills(n: nat, unit: nat)
    requires unit > 0
    ensures (n + (unit - n % unit)) % unit == 0
  {
    var q := n / unit;
    assert n + (unit - n % unit) == unit * (q + 1);
    MultipleHasNoRemainder(unit, q + 1);
  }

  lemma MultiplyOrder(unit: nat, m: nat, n: nat)
    requires m <= n
    ensures unit * m <= unit * n
  {
  }

  lemma MultipleHasNoRemainder(unit: nat, q: nat)
    requires unit > 0
    ensures unit * q % unit == 0
  {
    var n := unit * q;
    assert n == unit * (n / unit) + n % unit;
    assert unit * (q - n / unit) == n % unit;
    if q > n / unit { MultiplyOrder(unit, 1, q - n / unit); }
  }

  lemma {:induction false} LengthOfBits(bytes: seq<Byte>)
    ensures |BitsOf(bytes, 8)| == |bytes| * 8
  {
    if bytes != [] { LengthOfBits(bytes[..|bytes| - 1]); }
  }

  /** The input bits, filled with zero bits on the right to a whole number of groups. */
  function Filled(bytes: seq<Byte>): (bits: seq<Bit>)
    ensures |bits| % 5 == 0
  {
    LengthOfBits(bytes);
    BitsOf(bytes, 8) + Zeros(Missing(|bytes| * 8, 5))
  }

  function Digits(vs: seq<nat>): (s: string)
    requires forall i :: 0 <= i < |vs| ==> vs[i] < 32
    ensures |s| == |vs|
  {
    seq(|vs|, i requires 0 <= i < |vs| => ALPHABET[vs[i]])
  }

  function Padding(n: nat): string { seq(n, _ => '=') }

  function Encode(bytes: seq<Byte>): string {
    var vs := Groups(Filled(bytes));
    Digits(vs) + Padding(Missing(|vs|, 8))
  }

  // ---------------------------------------------------------------- decoding inverts encoding

  lemma {:induction false} ValuesOfTwoParts(a: string, b: string)
    ensures Values(a + b) == Values(a) + Values(b)
  {
    if b == "" {
      assert a + b == a;
    } else {
      ValuesOfTwoParts(a, b[..|b| - 1]);
      assert (a + b)[..|a + b| - 1] == a + b[..|b| - 1];
    }
  }

  lemma {:induction false} DigitsReadBack(vs: seq<nat>)
    requires forall i :: 0 <= i < |vs| ==> vs[i] < 32
    ensures Values(Digits(vs)) == vs
  {
    if vs != [] {
      DigitsReadBack(vs[..|vs| - 1]);
      AlphabetHasNoRepeats(vs[|vs| - 1]);
      assert Digits(vs)[..|vs| - 1] == Digits(vs[..|vs| - 1]);
    }
  }

  lemma {:induction false} PaddingCarriesNothing(n: nat)
    ensures Values(Padding(n)) == []
  {
    if n > 0 {
      PaddingCarriesNothing(n - 1);
      assert Padding(n)[..n - 1] == Padding(n - 1);
    }
  }

  lemma OneMoreGroup(front: seq<Bit>, last: seq<Bit>)
    requires |front| % 5 == 0 && |last| == 5
    ensures Groups(front + last) == Groups(front) + [FromBits(last)]
  {
    var bits := front + last;
    assert bits[..|bits| - 5] == front && bits[|bits| - 5..] == last;
  }

  lemma {:induction false} GroupsKeepTheBits(bits: seq<Bit>)
    requires |bits| % 5 == 0
    ensures BitsOf(Groups(bits), 5) == bits
    decreases |bits|
  {
    if bits != [] {
      var front, last := bits[..|bits| - 5], bits[|bits| - 5..];
      assert bits == front + last;
      GroupsKeepTheBits(front);
      ToBitsInvertsFromBits(last);
      OneMoreGroup(front, last);
      BitsOfOneMore(Groups(front), FromBits(last), 5);
    }
  }

  lemma {:induction false} BitsOfTwoParts(a: seq<nat>, b: seq<nat>, width: nat)
    ensures BitsOf(a + b, width) == BitsOf(a, width) + BitsOf(b, width)
  {
    if b == [] {
      assert a + b == a;
    } else {
      var front, last := b[..|b| - 1], b[|b| - 1];
      assert b == front + [last];
      Regroup(a, front, [last]);
      BitsOfTwoParts(a, front, width);
      BitsOfOneMore(a + front, last, width);
      BitsOfOneMore(front, last, width);
      Regroup(BitsOf(a, width), BitsOf(front, width), ToBits(last, width));
    }
  }

  lemma FirstByteFirst(bytes: seq<Byte>)
    requires bytes != []
    ensures BitsOf(bytes, 8) == ToBits(bytes[0], 8) + BitsOf(bytes[1..], 8)
  {
    assert [bytes[0]] + bytes[1..] == bytes;
    BitsOfTwoParts([bytes[0]], bytes[1..], 8);
    BitsOfOneMore([], bytes[0], 8);
    assert [] + [bytes[0]] == [bytes[0]] && BitsOf([], 8) == [];
  }

  lemma BytesOfOneMore(b: Byte, bits: seq<Bit>)
    ensures Bytes(ToBits(b, 8) + bits) == [b] + Bytes(bits)
  {
    var all := ToBits(b, 8) + bits;
    assert all[..8] == ToBits(b, 8) && all[8..] == bits;
    assert Pow2(8) == 256;
    FromBitsInvertsToBits(b, 8);
  }

  lemma {:induction false} BytesReadBack(bytes: seq<Byte>, rest: seq<Bit>)
    requires |rest| < 8
    ensures Bytes(BitsOf(bytes, 8) + rest) == bytes
  {
    if bytes != [] {
      FirstByteFirst(bytes);
      BytesReadBack(bytes[1..], rest);
      var first, others := ToBits(bytes[0], 8), BitsOf(bytes[1..], 8);
      BytesOfOneMore(bytes[0], others + rest);
      Regroup(first, others, rest);
    }
  }

  lemma PaddedDigitsReadBack(vs: seq<nat>, n: nat)
    requires forall i :: 0 <= i < |vs| ==> vs[i] < 32
    ensures Values(Digits(vs) + Padding(n)) == vs
  {
    ValuesOfTwoParts(Digits(vs), Padding(n));
    DigitsReadBack(vs);
    PaddingCarriesNothing(n);
  }

  lemma EncodedValues(bytes: seq<Byte>)
    ensures Values(Encode(bytes)) == Groups(Filled(bytes))
  {
    var vs := Groups(Filled(bytes));
    PaddedDigitsReadBack(vs, Missing(|vs|, 8));
  }

  lemma FilledBitsReadBack(bytes: seq<Byte>)
    ensures Bytes(BitsOf(Groups(Filled(bytes)), 5)) == bytes
  {
    GroupsKeepTheBits(Filled(bytes));
    BytesReadBack(bytes, Zeros(Missing(|bytes| * 8, 5)));
  }

  lemma {:induction false} UpperCaseOfTwoParts(up: UpperCasing, a: string, b: string)
    ensures UpperCase(up, a + b) == UpperCase(up, a) + UpperCase(up, b)
  {
    if b == "" {
      assert a + b == a;
    } else {
      UpperCaseOfTwoParts(up, a, b[..|b| - 1]);
      assert (a + b)[..|a + b| - 1] == a + b[..|b| - 1];
    }
  }

  predicate EncodedChar(c: char) { IndexOf(c).Some? || c == '=' }

  lemma EncodedCharacters(bytes: seq<Byte>)
    ensures forall i :: 0 <= i < |Encode(bytes)| ==> EncodedChar(Encode(bytes)[i])
  {
    var vs := Groups(Filled(bytes));
    forall i | 0 <= i < |Encode(bytes)| ensures EncodedChar(Encode(bytes)[i]) {
      if i < |vs| { AlphabetHasNoRepeats(vs[i]); }
    }
  }

  lemma {:induction false} UpperCaseKeepsEncoded(up: UpperCasing, s: string)
    requires StandardOnAscii(up) && forall i :: 0 <= i < |s| ==> EncodedChar(s[i])
    ensures UpperCase(up, s) == s
  {
    if s != "" {
      UpperCaseKeepsEncoded(up, s[..|s| - 1]);
      assert EncodedChar(s[|s| - 1]);
      assert s == s[..|s| - 1] + [s[|s| - 1]];
    }
  }

  /**
    Decoding inverts encoding for every byte string, and so it does for every text that stands
    for the same values as the encoding.
   */
  lemma DecodeInvertsEncode(up: UpperCasing, bytes: seq<Byte>, text: string)
    requires StandardOnAscii(up)
    requires Values(UpperCase(up, text)) == Values(UpperCase(up, Encode(bytes)))
    ensures Decode(up, text) == bytes
  {
    EncodedCharacters(bytes);
    UpperCaseKeepsEncoded(up, Encode(bytes));
    EncodedValues(bytes);
    FilledBitsReadBack(bytes);
  }

  lemma {:induction false} SkippedTextHasNoValues(s: string)
    requires forall i :: 0 <= i < |s| ==> IndexOf(s[i]).None?
    ensures Values(s) == []
  {
    if s != "" { SkippedTextHasNoValues(s[..|s| - 1]); }
  }

  /** Characters whose upper case is outside the alphabet may come and go anywhere: spaces, dashes and padding do. */
  lemma SkippedCharactersDoNotMatter(up: UpperCasing, a: string, c: char, b: string)
    requires forall i :: 0 <= i < |up(c)| ==> IndexOf(up(c)[i]).None?
    ensures Values(UpperCase(up, a + [c] + b)) == Values(UpperCase(up, a + b))
  {
    UpperCaseOfTwoParts(up, a + [c], b);
    UpperCaseOfTwoParts(up, a, b);
    assert (a + [c])[..|a|] == a;
    ValuesOfTwoParts(UpperCase(up, a) + up(c), UpperCase(up, b));
    ValuesOfTwoParts(UpperCase(up, a), up(c));
    ValuesOfTwoParts(UpperCase(up, a), UpperCase(up, b));
    SkippedTextHasNoValues(up(c));
  }

  lemma SkippedCharactersAreOutside(up: UpperCasing, c: char)
    requires StandardOnAscii(up) && c in {' ', '-', '=', '\t', '\n', '\r', '\U{b}', '\U{c}'}
    ensures forall i :: 0 <= i < |up(c)| ==> IndexOf(up(c)[i]).None?
  {
  }

  /** Two texts that differ only in letter case decode alike. */
  lemma {:induction false} LetterCaseDoesNotMatter(up: UpperCasing, s: string, t: string)
    requires |s| == |t| && forall i :: 0 <= i < |s| ==> up(s[i]) == up(t[i])
    ensures UpperCase(up, s) == UpperCase(up, t) && Decode(up, s) == Decode(up, t)
  {
    if s != "" { LetterCaseDoesNotMatter(up, s[..|s| - 1], t[..|t| - 1]); }
  }

  // ---------------------------------------------------------------- truncation

  function BigEndian(bytes: seq<Byte>): nat {
    if bytes == [] then 0 else 256 * BigEndian(bytes[..|bytes| - 1]) + bytes[|bytes| - 1] as nat
  }

  /** DT of RFC 4226, section 5.3: four bytes from the offset in the low nibble, without the sign bit. */
  function DynamicTruncation(mac: seq<Byte>): (r: nat)
    requires |mac| == 20
    ensures r < 0x8000_0000
  {
    var offset := mac[19] as nat % 16;
    BigEndian(mac[offset..offset + 4]) % 0x8000_0000
  }

  function Decimal(n: nat): string {
    if n < 10 then [(n + '0' as int) as char] else Decimal(n / 10) + [(n % 10 + '0' as int) as char]
  }

  function PadStart(s: string, width: nat): string
    decreases width - |s|
  {
    if |s| >= width then s else PadStart("0" + s, width)
  }

  predicate IsNumber(s: string) { forall i :: 0 <= i < |s| ==> '0' <= s[i] <= '9' }

  function NumberOf(s: string): nat
    requires IsNumber(s)
  {
    if s == "" then 0 else 10 * NumberOf(s[..|s| - 1]) + (s[|s| - 1] as int - '0' as int)
  }

  lemma {:induction false} DecimalReadsBack(n: nat)
    ensures IsNumber(Decimal(n)) && NumberOf(Decimal(n)) == n && Decimal(n) != ""
    ensures n < 10 ==> |Decimal(n)| == 1
    ensures n >= 10 ==> |Decimal(n)| == 1 + |Decimal(n / 10)|
  {
    if n >= 10 {
      DecimalReadsBack(n / 10);
      assert Decimal(n)[..|Decimal(n)| - 1] == Decimal(n / 10);
    } else {
      assert Decimal(n)[..0] == "";
    }
  }

  lemma {:induction false} LeadingZeroReadsTheSame(s: string)
    requires IsNumber(s)
    ensures IsNumber("0" + s) && NumberOf("0" + s) == NumberOf(s)
  {
    if s == "" {
      assert ("0" + s)[..0] == "";
    } else {
      LeadingZeroReadsTheSame(s[..|s| - 1]);
      assert ("0" + s)[..|s|] == "0" + s[..|s| - 1];
    }
  }

  lemma {:induction false} PaddingReadsTheSame(s: string, width: nat)
    requires IsNumber(s) && |s| <= width
    ensures var p := PadStart(s, width); |p| == width && IsNumber(p) && NumberOf(p) == NumberOf(s)
    decreases width - |s|
  {
    if |s| < width {
      LeadingZeroReadsTheSame(s);
      PaddingReadsTheSame("0" + s, width);
    }
  }

  function Pow10(k: nat): nat { if k == 0 then 1 else 10 * Pow10(k - 1) }

  lemma {:induction false} DecimalIsShort(n: nat, k: nat)
    requires k >= 1 && n < Pow10(k)
    ensures |Decimal(n)| <= k
  {
    if n >= 10 { DecimalIsShort(n / 10, k - 1); }
  }

  /** A code has six digits, and they are the truncated value modulo a million. */
  lemma CodesHaveSixDigits(n: nat)
    requires n < 1000000
    ensures var code := PadStart(Decimal(n), 6); |code| == 6 && IsNumber(code) && NumberOf(code) == n
  {
    DecimalReadsBack(n);
    assert Pow10(6) == 1000000;
    DecimalIsShort(n, 6);
    PaddingReadsTheSame(Decimal(n), 6);
  }

  lemma BigEndianOfFour(a: Byte, b: Byte, c: Byte, d: Byte)
    ensures BigEndian([a, b, c, d]) == ((a as nat * 256 + b as nat) * 256 + c as nat) * 256 + d as nat
  {
    assert [a][..0] == [] && BigEndian([a]) == a as nat;
    assert [a, b][..1] == [a] && BigEndian([a, b]) == a as nat * 256 + b as nat;
    assert [a, b, c][..2] == [a, b] && BigEndian([a, b, c]) == (a as nat * 256 + b as nat) * 256 + c as nat;
    assert [a, b, c, d][..3] == [a, b, c];
  }

  /** Clearing the sign bit of the first byte is taking the value modulo 2^31. */
  lemma SignBitCleared(a: nat, low: nat)
    requires a < 256 && low < 0x100_0000
    ensures (a * 0x100_0000 + low) % 0x8000_0000 == a % 128 * 0x100_0000 + low
  {
    assert a == 128 * (a / 128) + a % 128;
    assert a * 0x100_0000 + low == 0x8000_0000 * (a / 128) + (a % 128 * 0x100_0000 + low);
  }

  method Truncate(hmac: seq<Byte>) returns (code: string)
    requires |hmac| == 20
    ensures |code| == 6 && IsNumber(code) && NumberOf(code) == DynamicTruncation(hmac) % 1000000
  {
    var offset := hmac[|hmac| - 1] as nat % 16;
    var b0, b1 := hmac[offset] as nat, hmac[offset + 1] as nat;
    var b2, b3 := hmac[offset + 2] as nat, hmac[offset + 3] as nat;
    var binary := b0 % 128 * 0x100_0000 + b1 * 0x1_0000 + b2 * 0x100 + b3;
    assert hmac[offset..offset + 4] == [b0, b1, b2, b3];
    BigEndianOfFour(b0, b1, b2, b3);
    SignBitCleared(b0, b1 * 0x1_0000 + b2 * 0x100 + b3);
    var otp := binary % 1000000;
    CodesHaveSixDigits(otp);
    code := PadStart(Decimal(otp), 6);
  }

  // ---------------------------------------------------------------- the time window

  datatype Code = Code(code: string, remainingSeconds: real)

  function Seconds(nowMs: nat): nat { nowMs / 1000 }

  function Counter(nowMs: nat, step: real): int
    requires step != 0.0
  {
    (Seconds(nowMs) as real / step).Floor
  }

  /** The remainder of a nonnegative number, as the source's operator gives it for either sign of the divisor. */
  function Remainder(x: real, step: real): real
    requires x >= 0.0 && step != 0.0
  {
    var m := if step < 0.0 then -step else step;
    x - (x / m).Floor as real * m
  }

  function Remaining(nowMs: nat, step: real): real
    requires step != 0.0
  {
    step - Remainder(Seconds(nowMs) as real, step)
  }

  /** The eight bytes of a counter, if it fits. */
  function CounterBytes(counter: nat): seq<Byte>
    requires counter < Pow2(64)
  {
    ToBytes(counter, 8)
  }

  function ToBytes(v: nat, n: nat): (bytes: seq<Byte>)
    ensures |bytes| == n
  {
    if n == 0 then [] else ToBytes(v / 256, n - 1) + [v % 256]
  }

  /** The counter is written big-endian. */
  lemma {:induction false} CounterBytesReadBack(v: nat, n: nat)
    requires v < Pow2(8 * n)
    ensures BigEndian(ToBytes(v, n)) == v
  {
    if n > 0 {
      assert Pow2(8) == 256;
      Pow2OfSum(8, 8 * (n - 1));
      CounterBytesReadBack(v / 256, n - 1);
      assert ToBytes(v, n)[..n - 1] == ToBytes(v / 256, n - 1);
    }
  }

  method GenerateTotp(up: UpperCasing, secret: string, nowMs: nat, step: real,
                      hmac: (seq<Byte>, seq<Byte>) -> seq<Byte>)
    returns (r: Code)
    requires forall key, message :: |hmac(key, message)| == 20
    ensures secret == "" ==> r == Code("000000", 30.0)
    ensures secret != "" && (step == 0.0 || !(0 <= Counter(nowMs, step) < Pow2(64))) ==> r == Code("ERR2FA", 0.0)
    ensures secret != "" && step != 0.0 && 0 <= Counter(nowMs, step) < Pow2(64) ==>
              && |r.code| == 6 && IsNumber(r.code)
              && NumberOf(r.code) ==
                 DynamicTruncation(hmac(Decode(up, secret), CounterBytes(Counter(nowMs, step)))) % 1000000
              && r.remainingSeconds == Remaining(nowMs, step)
  {
    if secret == "" { return Code("000000", 30.0); }
    var key := Base32ToBuffer(up, secret);
    if step == 0.0 { return Code("ERR2FA", 0.0); }
    var counter, remainingSeconds := Counter(nowMs, step), Remaining(nowMs, step);
    if counter < 0 || counter >= Pow2(64) { return Code("ERR2FA", 0.0); }
    var buf := CounterBytes(counter);
    var code := Truncate(hmac(key, buf));
    return Code(code, remainingSeconds);
  }

  /** The counter stays for exactly the remaining seconds, and then it is the next one. */
  lemma CounterHoldsForTheRemainingSeconds(nowMs: nat, later: nat, step: real)
    requires step > 0.0 && nowMs <= later
    ensures var elapsed := (Seconds(later) - Seconds(nowMs)) as real;
            && 0.0 < Remaining(nowMs, step) <= step
            && (Counter(later, step) == Counter(nowMs, step) <==> elapsed < Remaining(nowMs, step))
            && (elapsed == Remaining(nowMs, step) ==> Counter(later, step) == Counter(nowMs, step) + 1)
  {
    var a, b := Seconds(nowMs) as real, Seconds(later) as real;
    Window(a, a, step);
    Window(a, b, step);
  }

  /** The numbers with the same quotient lie in one window of the length of the step, and the next ones in the next. */
  lemma Window(a: real, b: real, step: real)
    requires step > 0.0
    ensures var q, start := (a / step).Floor, (a / step).Floor as real * step;
            && ((b / step).Floor == q <==> start <= b < start + step)
            && ((b / step).Floor == q + 1 <==> start + step <= b < start + step + step)
  {
    var q := (a / step).Floor;
    NextMultiple(q, step);
    NextMultiple(q + 1, step);
    FloorOfQuotient(b, step, q);
    FloorOfQuotient(b, step, q + 1);
  }

  lemma NextMultiple(q: int, step: real)
    ensures (q + 1) as real * step == q as real * step + step
  {
  }

  lemma FloorIs(r: real, q: int)
    ensures r.Floor == q <==> q as real <= r < (q + 1) as real
  {
  }

  lemma FloorOfQuotient(x: real, step: real, q: int)
    requires step > 0.0
    ensures (x / step).Floor == q <==> q as real * step <= x < (q + 1) as real * step
  {
    FloorIs(x / step, q);
    QuotientOrder(q as real, x, step);
    QuotientOrder((q + 1) as real, x, step);
  }

  lemma QuotientOrder(a: real, x: real, step: real)
    requires step > 0.0
    ensures a <= x / step <==> a * step <= x
  {
    var r := x / step;
    assert r * step == x;
    if a <= r { ProductOrder(a, r, step); }
    if a * step <= x && a > r { StrictProductOrder(r, a, step); }
  }

  lemma ProductOrder(a: real, b: real, step: real)
    requires step > 0.0 && a <= b
    ensures a * step <= b * step
  {
  }

  lemma StrictProductOrder(a: real, b: real, step: real)
    requires step > 0.0 && a < b
    ensures a * step < b * step
  {
  }

  /**
    The counter is the number of whole steps in the whole seconds of the clock, and the remaining
    time is what is missing to the next step; so they are for every reading of the clock.
   */
  lemma CounterIsTheStepOfTheClock(nowMs: nat, seconds: nat, step: real)
    requires 1000 * seconds <= nowMs < 1000 * seconds + 1000 && step > 0.0
    ensures var c, t := Counter(nowMs, step), seconds as real;
            && c >= 0 && c as real * step <= t < (c + 1) as real * step
            && Remaining(nowMs, step) == (c + 1) as real * step - t
  {
    assert Seconds(nowMs) == seconds;
    var c := Counter(nowMs, step);
    FloorOfQuotient(seconds as real, step, c);
    NextMultiple(c, step);
    if c < 0 { ProductOrder((c + 1) as real, 0.0, step); }
  }

  /** With a negative step, which no caller asks for, the quotient is floored and the remainder is that of its size. */
  lemma NegativeStepOfTheClock(nowMs: nat, seconds: nat, step: real)
    requires 1000 * seconds <= nowMs < 1000 * seconds + 1000 && step < 0.0
    ensures var c, t, k := Counter(nowMs, step), seconds as real, Counter(nowMs, -step);
            && c as real * step >= t > (c + 1) as real * step
            && Remaining(nowMs, step) == step - (t - k as real * -step)
  {
    assert Seconds(nowMs) == seconds;
    var t := seconds as real;
    var r := t / step;
    assert r * step == t;
    var c := Counter(nowMs, step);
    FloorIs(r, c);
    NegativeOrder(c as real, r, step);
    var next := (c + 1) as real;
    StrictNegativeOrder(r, next, step);
    assert t > next * step;
    NextMultiple(c, step);
  }

  lemma NegativeOrder(a: real, b: real, step: real)
    requires step < 0.0 && a <= b
    ensures a * step >= b * step
  {
  }

  lemma StrictNegativeOrder(a: real, b: real, step: real)
    requires step < 0.0 && a < b
    ensures a * step > b * step
  {
  }

  /** The worked example of RFC 4226, section 5.4. */
  const EXAMPLE_MAC: seq<Byte> := [
    0x1f, 0x86, 0x98, 0x69, 0x0e, 0x02, 0xca, 0x16, 0x61, 0x85,
    0x50, 0xef, 0x7f, 0x19, 0xda, 0x8e, 0x94, 0x5b, 0x55, 0x5a]

  lemma PublishedExampleTruncates()
    ensures |EXAMPLE_MAC| == 20 && DynamicTruncation(EXAMPLE_MAC) == 0x50ef7f19
    ensures DynamicTruncation(EXAMPLE_MAC) % 1000000 == 872921
  {
    assert EXAMPLE_MAC[10..14] == [0x50, 0xef, 0x7f, 0x19];
    BigEndianOfFour(0x50, 0xef, 0x7f, 0x19);
  }

  /**
    The truncated value by its bytes: the last byte names a position in its low half, and the four
    bytes there, the first without its high bit, are read from the most significant on.
   */
  lemma TruncationReadsFourBytes(mac: seq<Byte>, k: nat)
    requires |mac| == 20 && k < 16 && mac[19] % 16 == k
    ensures DynamicTruncation(mac) ==
            mac[k] as nat % 128 * 0x100_0000 + mac[k + 1] as nat * 0x1_0000
            + mac[k + 2] as nat * 0x100 + mac[k + 3] as nat
  {
    assert mac[k..k + 4] == [mac[k], mac[k + 1], mac[k + 2], mac[k + 3]];
    BigEndianOfFour(mac[k], mac[k + 1], mac[k + 2], mac[k + 3]);
    SignBitCleared(mac[k], mac[k + 1] as nat * 0x1_0000 + mac[k + 2] as nat * 0x100 + mac[k + 3] as nat);
  }
}
