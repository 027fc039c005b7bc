/** Hexadecimal groups and decimal octets of addresses, on machine words. */
module AddressDigits {

  predicate IsHexChar(c: char) {
    '0' <= c <= '9' || 'a' <= c <= 'f' || 'A' <= c <= 'F'
  }

  /** `parseInt(c, 16)` of one hexadecimal character. */
  function DigitOf(c: char): (d: bv16)
    ensures d < 16
  {
    match c
    case '1' => 1 case '2' => 2 case '3' => 3 case '4' => 4 case '5' => 5
    case '6' => 6 case '7' => 7 case '8' => 8 case '9' => 9
    case 'a' => 10 case 'b' => 11 case 'c' => 12 case 'd' => 13 case 'e' => 14 case 'f' => 15
    case 'A' => 10 case 'B' => 11 case 'C' => 12 case 'D' => 13 case 'E' => 14 case 'F' => 15
    case _ => 0
  }

  /** The lower-case character of a digit. */
  function CharOf(d: bv16): (c: char)
    ensures IsHexChar(c)
  {
    match d
    case 1 => '1' case 2 => '2' case 3 => '3' case 4 => '4' case 5 => '5'
    case 6 => '6' case 7 => '7' case 8 => '8' case 9 => '9'
    case 10 => 'a' case 11 => 'b' case 12 => 'c' case 13 => 'd' case 14 => 'e' case 15 => 'f'
    case _ => '0'
  }

  function LowerChar(c: char): char {
    match c
    case 'A' => 'a' case 'B' => 'b' case 'C' => 'c' case 'D' => 'd' case 'E' => 'e' case 'F' => 'f'
    case _ => c
  }

  function Lower(s: string): string {
    seq(|s|, i requires 0 <= i < |s| => LowerChar(s[i]))
  }

  function PadStart4(s: string): string
    decreases 4 - |s|
  {
    if |s| >= 4 then s else PadStart4("0" + s)
  }

  /** `parseInt(s, 16)`, for at most four hexadecimal characters. */
  function ParseHex(s: string): bv16 {
    if s == "" then 0 else (ParseHex(s[..|s| - 1]) << 4) | DigitOf(s[|s| - 1])
  }

  /** The four lower-case hexadecimal digits of a group. */
  function Hex4(v: bv16): (s: string)
    ensures |s| == 4 && ':' !in s
  {
    [CharOf((v >> 12) & 0xf), CharOf((v >> 8) & 0xf), CharOf((v >> 4) & 0xf), CharOf(v & 0xf)]
  }

  function Word(a: bv16, b: bv16, c: bv16, d: bv16): bv16 {
    (a << 12) | (b << 8) | (c << 4) | d
  }

  lemma CharOfDigit(c: char)
    requires IsHexChar(c)
    ensures CharOf(DigitOf(c)) == LowerChar(c)
  {
  }

  lemma DigitOfChar(d: bv16)
    requires d < 16
    ensures DigitOf(CharOf(d)) == d
  {
  }

  lemma WordDigits(a: bv16, b: bv16, c: bv16, d: bv16)
    requires a < 16 && b < 16 && c < 16 && d < 16
    ensures var v := Word(a, b, c, d);
            (v >> 12) & 0xf == a && (v >> 8) & 0xf == b && (v >> 4) & 0xf == c && v & 0xf == d
    ensures (((((((0 << 4) | a) << 4) | b) << 4) | c) << 4) | d == Word(a, b, c, d)
  {
  }

  lemma WordOfDigits(v: bv16)
    ensures Word((v >> 12) & 0xf, (v >> 8) & 0xf, (v >> 4) & 0xf, v & 0xf) == v
  {
  }

  lemma ParseHexSnoc(s: string, c: char)
    ensures ParseHex(s + [c]) == (ParseHex(s) << 4) | DigitOf(c)
  {
    assert (s + [c])[..|s|] == s;
  }

  lemma ParseHexOfFour(a: char, b: char, c: char, d: char)
    ensures ParseHex([a, b, c, d]) == Word(DigitOf(a), DigitOf(b), DigitOf(c), DigitOf(d))
  {
    assert ParseHex("") == 0;
    hide ParseHex, DigitOf, Word;
    assert "" + [a] == [a] && [a] + [b] == [a, b] && [a, b] + [c] == [a, b, c] && [a, b, c] + [d] == [a, b, c, d];
    ParseHexSnoc("", a);
    ParseHexSnoc([a], b);
    ParseHexSnoc([a, b], c);
    ParseHexSnoc([a, b, c], d);
    WordDigits(DigitOf(a), DigitOf(b), DigitOf(c), DigitOf(d));
  }

  /** Parsing the digits of a group gives the group back. */
  lemma ParseOfHex4(v: bv16)
    ensures ParseHex(Hex4(v)) == v
  {
    var a, b, c, d := (v >> 12) & 0xf, (v >> 8) & 0xf, (v >> 4) & 0xf, v & 0xf;
    assert a < 16 && b < 16 && c < 16 && d < 16;
    DigitOfChar(a);
    DigitOfChar(b);
    DigitOfChar(c);
    DigitOfChar(d);
    ParseHexOfFour(CharOf(a), CharOf(b), CharOf(c), CharOf(d));
    WordOfDigits(v);
    hide CharOf, DigitOf, Word, ParseHex;
  }

  lemma Hex4OfWord(a: char, b: char, c: char, d: char)
    requires IsHexChar(a) && IsHexChar(b) && IsHexChar(c) && IsHexChar(d)
    ensures Hex4(ParseHex([a, b, c, d])) == [LowerChar(a), LowerChar(b), LowerChar(c), LowerChar(d)]
  {
    ParseHexOfFour(a, b, c, d);
    WordDigits(DigitOf(a), DigitOf(b), DigitOf(c), DigitOf(d));
    CharOfDigit(a);
    CharOfDigit(b);
    CharOfDigit(c);
    CharOfDigit(d);
    hide CharOf, DigitOf, Word, ParseHex, LowerChar, IsHexChar;
  }

  ghost predicate AllHex(s: string) {
    forall i :: 0 <= i < |s| ==> IsHexChar(s[i])
  }

  lemma LeadingZero(s: string)
    requires |s| < 4
    ensures ParseHex("0" + s) == ParseHex(s)
    decreases |s|
  {
    if s == "" {
      assert ("0" + s)[..0] == "" && ("0" + s)[0] == '0';
    } else {
      LeadingZero(s[..|s| - 1]);
      assert ("0" + s)[..|s|] == "0" + s[..|s| - 1];
    }
  }

  lemma {:induction false} PadKeepsValue(s: string)
    requires |s| <= 4 && AllHex(s)
    ensures |PadStart4(s)| == 4 && AllHex(PadStart4(s)) && ParseHex(PadStart4(s)) == ParseHex(s)
    decreases 4 - |s|
  {
    if |s| < 4 {
      LeadingZero(s);
      PadKeepsValue("0" + s);
    }
  }

  lemma LowerOfFour(s: string)
    requires |s| == 4
    ensures Lower(s) == [LowerChar(s[0]), LowerChar(s[1]), LowerChar(s[2]), LowerChar(s[3])]
  {
    hide LowerChar;
    assert |Lower(s)| == 4;
  }

  /** However a group is printed, with leading zeros or without and in either case, padding and lower-casing gives its
      four canonical digits. */
  lemma PaddedIsCanonical(s: string)
    requires |s| <= 4 && AllHex(s)
    ensures Lower(PadStart4(s)) == Hex4(ParseHex(s))
  {
    hide Hex4, ParseHex, Lower, LowerChar, PadStart4, IsHexChar;
    PadKeepsValue(s);
    var t := PadStart4(s);
    LowerOfFour(t);
    assert t == [t[0], t[1], t[2], t[3]];
    Hex4OfWord(t[0], t[1], t[2], t[3]);
  }
}
