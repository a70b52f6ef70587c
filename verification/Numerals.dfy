/** Decimal and hexadecimal text, as Go's strconv and math/big and go-ethereum's common package read and write it. */
module Numerals {
  import opened Options

  // ------------------------------------------------------------------ decimal

  predicate IsDigit(c: char) {
    '0' <= c <= '9'
  }

  function DigitValue(c: char): nat
    requires IsDigit(c)
  {
    c as int - '0' as int
  }

  function DigitChar(d: nat): (c: char)
    requires d < 10
    ensures IsDigit(c) && DigitValue(c) == d
  {
    ('0' as int + d) as char
  }

  function FormatNat(n: nat): (s: string)
    ensures s != [] && IsDigit(s[0])
  {
    if n < 10 then [DigitChar(n)] else FormatNat(n / 10) + [DigitChar(n % 10)]
  }

  /** strconv.FormatInt(n, 10) and (*big.Int).String(). */
  function Format(n: int): string {
    if n < 0 then "-" + FormatNat(-n) else FormatNat(n)
  }

  function ParseDigits(s: string): Option<nat> {
    if s == [] then Some(0)
    else
      var last := |s| - 1;
      if !IsDigit(s[last]) then None
      else
        match ParseDigits(s[..last])
        case None => None
        case Some(v) => Some(10 * v + DigitValue(s[last]))
  }

  function ParseUnsigned(s: string): Option<nat> {
    if s == [] then None else ParseDigits(s)
  }

  /** (*big.Int).SetString(s, 10): an optional sign and at least one digit. */
  function ParseSigned(s: string): Option<int> {
    if s == [] then None
    else
      var magnitude := ParseUnsigned(if s[0] == '-' || s[0] == '+' then s[1..] else s);
      if magnitude.None? then None
      else
        var n: int := magnitude.value;
        Some(if s[0] == '-' then -n else n)
  }

  const TwoTo63: int := 0x8000_0000_0000_0000
  const TwoTo64: int := 0x1_0000_0000_0000_0000

  predicate FitsInt64(n: int) {
    -TwoTo63 <= n < TwoTo63
  }

  predicate FitsUint64(n: int) {
    0 <= n < TwoTo64
  }

  /** strconv.ParseInt(s, 10, 64). */
  function ParseInt64(s: string): Option<int> {
    var p := ParseSigned(s);
    if p.Some? && FitsInt64(p.value) then p else None
  }

  /** strconv.ParseUint(s, 10, 64), which takes no sign. */
  function ParseUint64(s: string): Option<int> {
    match ParseUnsigned(s)
    case None => None
    case Some(v) => if FitsUint64(v) then Some(v) else None
  }

  lemma {:induction false} ParseDigitsOfFormat(n: nat)
    ensures ParseDigits(FormatNat(n)) == Some(n)
  {
    if n < 10 {
      assert [DigitChar(n)][..0] == [];
    } else {
      ParseDigitsOfFormat(n / 10);
      var s := FormatNat(n);
      assert s[..|s| - 1] == FormatNat(n / 10);
      assert s[|s| - 1] == DigitChar(n % 10);
    }
  }

  /** Numbers are written with digits alone, after a minus if need be, and without leading zeros. */
  lemma {:induction false} FormatIsCanonical(n: nat)
    ensures AllDigits(FormatNat(n)) && (FormatNat(n)[0] == '0' ==> n == 0)
  {
    if n >= 10 {
      FormatIsCanonical(n / 10);
    }
  }

  /** Reading back what was written gives the number, for numbers of any size, and within 64 bits for both parsers. */
  lemma ParseOfFormat(n: int)
    ensures ParseSigned(Format(n)) == Some(n)
    ensures FitsInt64(n) ==> ParseInt64(Format(n)) == Some(n)
    ensures FitsUint64(n) ==> ParseUint64(Format(n)) == Some(n)
  {
    FormatParses(n);
  }

  lemma FormatParses(n: int)
    ensures ParseSigned(Format(n)) == Some(n)
    ensures n >= 0 ==> ParseUnsigned(Format(n)) == Some(n)
  {
    if n < 0 {
      assert Format(n)[1..] == FormatNat(-n);
      ParseDigitsOfFormat(-n);
    } else {
      ParseDigitsOfFormat(n);
    }
  }

  lemma {:induction false} ParsedStartsWithDigit(s: string)
    requires s != [] && ParseDigits(s).Some?
    ensures IsDigit(s[0])
    decreases |s|
  {
    if |s| > 1 {
      ParsedStartsWithDigit(s[..|s| - 1]);
    }
  }

  /** The number a text of digits stands for, from the first digit on. */
  function Positional(s: string): nat
    requires forall i :: 0 <= i < |s| ==> IsDigit(s[i])
  {
    if s == [] then 0 else DigitValue(s[0]) * PowerOfTen(|s| - 1) + Positional(s[1..])
  }

  function PowerOfTen(n: nat): nat {
    if n == 0 then 1 else 10 * PowerOfTen(n - 1)
  }

  lemma {:induction false} PositionalAtEnd(s: string)
    requires s != [] && forall i :: 0 <= i < |s| ==> IsDigit(s[i])
    ensures Positional(s) == 10 * Positional(s[..|s| - 1]) + DigitValue(s[|s| - 1])
    decreases |s|
  {
    var last := |s| - 1;
    if last > 0 {
      var tail := s[1..];
      PositionalAtEnd(tail);
      assert tail[..|tail| - 1] == s[..last][1..] && tail[|tail| - 1] == s[last];
      assert DigitValue(s[0]) * PowerOfTen(last) == 10 * (DigitValue(s[0]) * PowerOfTen(last - 1));
    } else {
      assert s[..0] == [] && s[1..] == [];
    }
  }

  /** A text is read exactly when it consists of digits, and as the number they stand for. */
  lemma {:induction false} ParseDigitsIsPositional(s: string)
    ensures ParseDigits(s).Some? <==> forall i :: 0 <= i < |s| ==> IsDigit(s[i])
    ensures ParseDigits(s).Some? ==> ParseDigits(s).value == Positional(s)
    decreases |s|
  {
    if s != [] {
      var last := |s| - 1;
      ParseDigitsIsPositional(s[..last]);
      assert forall i :: 0 <= i < last ==> s[..last][i] == s[i];
      if forall i :: 0 <= i < |s| ==> IsDigit(s[i]) {
        PositionalAtEnd(s);
      }
    }
  }

  predicate AllDigits(s: string) {
    s != [] && forall i :: 0 <= i < |s| ==> IsDigit(s[i])
  }

  /** What a text says: digits with an optional sign, which turns the number round if it is a minus. */
  predicate Says(s: string, n: int) {
    || (AllDigits(s) && n == Positional(s))
    || (s != [] && s[0] == '+' && AllDigits(s[1..]) && n == Positional(s[1..]))
    || (s != [] && s[0] == '-' && AllDigits(s[1..]) && n + Positional(s[1..]) == 0)
  }

  /** The three readers take exactly the texts that say a number in their range; only signed ones take a sign. */
  lemma ReadersAreExact(s: string, n: int)
    ensures ParseSigned(s) == Some(n) <==> Says(s, n)
    ensures ParseInt64(s) == Some(n) <==> Says(s, n) && -TwoTo63 <= n < TwoTo63
    ensures ParseUint64(s) == Some(n) <==> AllDigits(s) && n == Positional(s) && n < TwoTo64
  {
    ParseDigitsIsPositional(s);
    if s != [] {
      ParseDigitsIsPositional(s[1..]);
      assert AllDigits(s) ==> IsDigit(s[0]);
    }
  }

  /** A text without a sign is read the same way by both parsers. */
  lemma UnsignedIsSigned(s: string)
    requires ParseUint64(s).Some?
    ensures ParseSigned(s) == ParseUint64(s)
  {
    ParsedStartsWithDigit(s);
  }

  // ------------------------------------------------------------------ hexadecimal

  type Byte = b: int | 0 <= b < 256

  predicate IsHexDigit(c: char) {
    IsDigit(c) || 'a' <= c <= 'f' || 'A' <= c <= 'F'
  }

  function HexValue(c: char): (v: nat)
    requires IsHexDigit(c)
    ensures v < 16
  {
    if IsDigit(c) then DigitValue(c)
    else if 'a' <= c <= 'f' then c as int - 'a' as int + 10
    else c as int - 'A' as int + 10
  }

  function HexChar(v: nat): (c: char)
    requires v < 16
    ensures IsHexDigit(c) && HexValue(c) == v
  {
    if v < 10 then DigitChar(v) else ('a' as int + (v - 10)) as char
  }

  function HexPairs(bytes: seq<Byte>): (s: string)
    ensures |s| == 2 * |bytes|
    ensures forall i :: 0 <= i < |s| ==> IsHexDigit(s[i])
  {
    if bytes == [] then [] else [HexChar(bytes[0] / 16), HexChar(bytes[0] % 16)] + HexPairs(bytes[1..])
  }

  /** hexutil.Encode: lower case with a 0x prefix. */
  function HexEncode(bytes: seq<Byte>): string {
    "0x" + HexPairs(bytes)
  }

  function StripPrefix(s: string): string {
    if |s| >= 2 && s[0] == '0' && (s[1] == 'x' || s[1] == 'X') then s[2..] else s
  }

  /** hex.DecodeString with its error ignored: the bytes before the first bad digit. */
  function DecodePairs(s: string): seq<Byte> {
    if |s| < 2 || !IsHexDigit(s[0]) || !IsHexDigit(s[1]) then []
    else [16 * HexValue(s[0]) + HexValue(s[1])] + DecodePairs(s[2..])
  }

  /** common.FromHex: the prefix is optional and an odd number of digits is padded on the left. */
  function FromHex(s: string): seq<Byte> {
    var digits := StripPrefix(s);
    DecodePairs(if |digits| % 2 == 1 then "0" + digits else digits)
  }

  predicate IsPair(s: string, i: nat) {
    2 * i + 1 < |s| && IsHexDigit(s[2 * i]) && IsHexDigit(s[2 * i + 1])
  }

  lemma PairInTail(s: string, i: nat)
    requires |s| >= 2
    ensures IsPair(s[2..], i) <==> IsPair(s, i + 1)
    ensures 2 * i + 3 < |s| ==> s[2..][2 * i] == s[2 * (i + 1)] && s[2..][2 * i + 1] == s[2 * (i + 1) + 1]
  {
  }

  /** The bytes are those of the leading pairs of hex digits, up to the first that is none. */
  lemma {:induction false} DecodesLeadingPairs(s: string)
    ensures var r := DecodePairs(s);
            && (forall i :: 0 <= i < |r| ==>
                  IsPair(s, i) && r[i] == 16 * HexValue(s[2 * i]) + HexValue(s[2 * i + 1]))
            && !IsPair(s, |r|)
    decreases |s|
  {
    if |s| >= 2 && IsHexDigit(s[0]) && IsHexDigit(s[1]) {
      DecodesLeadingPairs(s[2..]);
      var r, rest := DecodePairs(s), DecodePairs(s[2..]);
      forall i | 0 <= i < |r|
        ensures IsPair(s, i) && r[i] == 16 * HexValue(s[2 * i]) + HexValue(s[2 * i + 1])
      {
        if i > 0 {
          PairInTail(s, i - 1);
        }
      }
      PairInTail(s, |rest|);
    }
  }

  /** Only a leading 0x, in either case of the letter, is taken off. */
  lemma PrefixIsOptional(s: string)
    ensures StripPrefix("0x" + s) == s && StripPrefix("0X" + s) == s
    ensures (|s| < 2 || s[..2] !in {"0x", "0X"}) ==> StripPrefix(s) == s
  {
    assert ("0x" + s)[2..] == s && ("0X" + s)[2..] == s;
    assert |s| >= 2 ==> s[..2] == [s[0], s[1]];
  }

  /** An odd number of digits: the first one is a byte by itself, and the pairs follow. */
  lemma OddDigits(s: string)
    requires |StripPrefix(s)| % 2 == 1 && IsHexDigit(StripPrefix(s)[0])
    ensures var digits := StripPrefix(s);
            FromHex(s) == [HexValue(digits[0])] + DecodePairs(digits[1..])
  {
    var digits := StripPrefix(s);
    var padded := "0" + digits;
    assert padded[0] == '0' && padded[1] == digits[0] && padded[2..] == digits[1..];
  }

  /** An even number of digits is read pair by pair. */
  lemma EvenDigits(s: string)
    requires |StripPrefix(s)| % 2 == 0
    ensures FromHex(s) == DecodePairs(StripPrefix(s))
  {
  }

  lemma TwentyPairs(digits: string, n: nat)
    requires |digits| == 40 && forall i :: 0 <= i < 40 ==> IsHexDigit(digits[i])
    requires !IsPair(digits, n) && forall i :: 0 <= i < n ==> IsPair(digits, i)
    ensures n == 20
  {
    assert n > 20 ==> IsPair(digits, 20);
  }

  /** An address text has exactly 40 hex digits after an optional prefix, and the address is their 20 bytes. */
  lemma AddressIsItsDigits(s: string)
    requires IsHexAddress(s)
    ensures var digits, a := StripPrefix(s), HexToAddress(s);
            && |digits| == 40
            && forall i :: 0 <= i < 20 ==>
                 IsPair(digits, i) && a[i] == 16 * HexValue(digits[2 * i]) + HexValue(digits[2 * i + 1])
  {
    var digits := StripPrefix(s);
    DecodesLeadingPairs(digits);
    TwentyPairs(digits, |DecodePairs(digits)|);
  }

  lemma {:induction false} DecodeOfPairs(bytes: seq<Byte>)
    ensures DecodePairs(HexPairs(bytes)) == bytes
  {
    if bytes != [] {
      DecodeOfPairs(bytes[1..]);
      assert HexPairs(bytes)[2..] == HexPairs(bytes[1..]);
      assert bytes == [bytes[0]] + bytes[1..];
    }
  }

  /** Hex text is written in lower case, two digits for each byte after the prefix. */
  lemma {:induction false} PairsAreLowerCase(bytes: seq<Byte>)
    ensures forall i :: 0 <= i < |HexPairs(bytes)| ==> IsDigit(HexPairs(bytes)[i]) || 'a' <= HexPairs(bytes)[i] <= 'f'
  {
    if bytes != [] {
      PairsAreLowerCase(bytes[1..]);
    }
  }

  /** Reading back hex text gives the bytes, the empty string included. */
  lemma FromHexOfEncode(bytes: seq<Byte>)
    ensures StripPrefix(HexEncode(bytes)) == HexPairs(bytes)
    ensures FromHex(HexEncode(bytes)) == bytes
  {
    assert HexEncode(bytes)[2..] == HexPairs(bytes);
    DecodeOfPairs(bytes);
  }

  /** common.IsHexAddress. */
  predicate IsHexAddress(s: string) {
    var digits := StripPrefix(s);
    |digits| == 40 && forall i :: 0 <= i < 40 ==> IsHexDigit(digits[i])
  }

  /** common.HexToAddress: the last 20 bytes, padded on the left. */
  function HexToAddress(s: string): (a: seq<Byte>)
    ensures |a| == 20
  {
    var bytes := FromHex(s);
    if |bytes| >= 20 then bytes[|bytes| - 20..] else seq(20 - |bytes|, _ => 0 as Byte) + bytes
  }

  /** Of any text, an address has the last 20 bytes, after zeros if there are fewer. */
  lemma AddressIsPadded(s: string, i: nat)
    requires i < 20
    ensures var n := |FromHex(s)|;
            HexToAddress(s)[i] == if i + n < 20 then 0 else FromHex(s)[i + n - 20]
  {
  }

  lemma AddressOfEncode(bytes: seq<Byte>)
    requires |bytes| == 20
    ensures IsHexAddress(HexEncode(bytes)) && HexToAddress(HexEncode(bytes)) == bytes
  {
    FromHexOfEncode(bytes);
  }
}
