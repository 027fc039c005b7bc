/** Which IP addresses count as private (src/file-security.ts): the text of an IPv6 address is expanded to its full
    lower-case form and compared with that. */
module FileSecurity {
  import opened Wrappers
  import opened AddressText
  import opened AddressDigits

  // ----- IPv4 ----------------------------------------------------------------------------------------------------

  /** One more decimal digit; None once the number is malformed or above 255. */
  function NextOctet(v: bv16, c: char): Option<bv16> {
    if v > 255 || !('0' <= c <= '9') then None
    else
      var next := v * 10 + DigitOf(c);
      if next > 255 then None else Some(next)
  }

  /** `Number(part)` of a run of decimal digits, if it is at most 255; None stands for every malformed part. */
  function OctetOf(part: string): Option<bv16> {
    if part == "" then Some(0)
    else if OctetOf(part[..|part| - 1]).None? then None
    else NextOctet(OctetOf(part[..|part| - 1]).value, part[|part| - 1])
  }

  predicate PrivateOctets(a: bv16, b: bv16) {
    || a == 0 || a == 10 || a == 127
    || (a == 172 && 16 <= b <= 31)
    || (a == 192 && b == 168)
    || (a == 169 && b == 254)
  }

  predicate IsPrivateIpv4(ip: string) {
    var parts := Split(ip, ".");
    if |parts| != 4 || exists i :: 0 <= i < |parts| && OctetOf(parts[i]).None? then true
    else PrivateOctets(OctetOf(parts[0]).value, OctetOf(parts[1]).value)
  }

  /** The template literal for a number below 256. */
  function Decimal(n: bv16): string {
    if n < 10 then [CharOf(n)]
    else if n < 100 then [CharOf(n / 10), CharOf(n % 10)]
    else [CharOf(n / 100), CharOf(n / 10 % 10), CharOf(n % 10)]
  }

  function Ipv4Text(a: bv16, b: bv16, c: bv16, d: bv16): string {
    Join([Decimal(a), Decimal(b), Decimal(c), Decimal(d)], '.')
  }

  // ----- IPv6 ----------------------------------------------------------------------------------------------------

  function Zeros(n: int): seq<string> {
    if n <= 0 then [] else ["0"] + Zeros(n - 1)
  }

  function SplitOrNone(half: string): seq<string> {
    if half == "" then [] else Split(half, ":")
  }

  function Segments(ip: string): seq<string> {
    var halves := Split(ip, "::");
    if |halves| == 2 then
      var left, right := SplitOrNone(halves[0]), SplitOrNone(halves[1]);
      left + Zeros(8 - |left| - |right|) + right
    else Split(ip, ":")
  }

  function Padded(segments: seq<string>): seq<string> {
    if segments == [] then [] else [Lower(PadStart4(segments[0]))] + Padded(segments[1..])
  }

  function NormalizeIpv6(ip: string): string {
    Join(Padded(Segments(ip)), ':')
  }

  function High(v: bv16): bv16 {
    (v >> 8) & 0xff
  }

  function Low(v: bv16): bv16 {
    v & 0xff
  }

  /** The IPv4 address embedded in the last two groups. */
  predicate IsPrivateTail(text: string) {
    var tail := Split(text, ":");
    if |tail| < 2 then true
    else
      var hi, lo := ParseHex(tail[0]), ParseHex(tail[1]);
      IsPrivateIpv4(Ipv4Text(High(hi), Low(hi), High(lo), Low(lo)))
  }

  predicate IsPrivateNormalized(normalized: string) {
    if normalized == "0000:0000:0000:0000:0000:0000:0000:0001" then true
    else if normalized == "0000:0000:0000:0000:0000:0000:0000:0000" then true
    else if |normalized| < 30 then false
    else
      var firstSegment := ParseHex(normalized[..4]);
      if firstSegment & 0xfe00 == 0xfc00 then true
      else if firstSegment & 0xffc0 == 0xfe80 then true
      else normalized[..30] == "0000:0000:0000:0000:0000:ffff:" && IsPrivateTail(normalized[30..])
  }

  predicate IsPrivateIpv6(ip: string) {
    IsPrivateNormalized(NormalizeIpv6(ip))
  }
}

/** Every printing of an address is brought to one form, so the verdict depends on the address alone. */
module AddressCanonicity {
  import opened Wrappers
  import opened AddressText
  import opened AddressDigits
  import opened FileSecurity

  /** The address of eight 16-bit groups. */
  type Groups = g: seq<bv16> | |g| == 8 witness [0, 0, 0, 0, 0, 0, 0, 0]

  function CanonicalParts(groups: seq<bv16>): (parts: seq<string>)
    ensures |parts| == |groups|
    ensures forall i :: 0 <= i < |groups| ==> parts[i] == Hex4(groups[i])
  {
    if groups == [] then [] else [Hex4(groups[0])] + CanonicalParts(groups[1..])
  }

  function Text(groups: seq<bv16>): string {
    Join(CanonicalParts(groups), ':')
  }

  /** The unique full lower-case form. */
  function Canonical(groups: Groups): string {
    Text(groups)
  }

  /** One to four hexadecimal characters of that value: leading zeros may be dropped, either case will do. */
  ghost predicate PrintsGroup(s: string, v: bv16) {
    1 <= |s| <= 4 && AllHex(s) && ParseHex(s) == v
  }

  ghost predicate PrintsGroups(parts: seq<string>, groups: seq<bv16>) {
    |parts| == |groups| && forall i :: 0 <= i < |parts| ==> PrintsGroup(parts[i], groups[i])
  }

  /** A printing of the address by section 2.2 of RFC 4291, items 1 and 2: all eight groups, or one run of zero groups
      written as `::`. */
  ghost predicate Prints(ip: string, groups: Groups) {
    || (exists parts :: PrintsGroups(parts, groups) && ip == Join(parts, ':'))
    || (exists i: nat, j: nat, left, right :: PrintsCompressed(ip, groups, i, j, left, right))
  }

  ghost predicate PrintsCompressed(ip: string, groups: Groups, i: nat, j: nat, left: seq<string>, right: seq<string>) {
    && i < j <= 8 && (forall k :: i <= k < j ==> groups[k] == 0)
    && PrintsGroups(left, groups[..i]) && PrintsGroups(right, groups[j..])
    && ip == Join(left, ':') + "::" + Join(right, ':')
  }

  lemma PrintsAreColonFree(parts: seq<string>, groups: seq<bv16>)
    requires PrintsGroups(parts, groups)
    ensures PartsWithout(parts, ':') && forall i :: 0 <= i < |parts| ==> parts[i] != ""
  {
    forall i | 0 <= i < |parts| ensures ':' !in parts[i] && parts[i] != "" {
      assert PrintsGroup(parts[i], groups[i]);
    }
  }

  lemma {:induction false} PaddedPrints(parts: seq<string>, groups: seq<bv16>)
    requires PrintsGroups(parts, groups)
    ensures Padded(parts) == CanonicalParts(groups)
  {
    if parts != [] {
      assert PrintsGroup(parts[0], groups[0]);
      assert PrintsGroups(parts[1..], groups[1..]) by {
        forall i | 0 <= i < |parts[1..]| ensures PrintsGroup(parts[1..][i], groups[1..][i]) {
          assert PrintsGroup(parts[i + 1], groups[i + 1]);
        }
      }
      PaddedPrints(parts[1..], groups[1..]);
      PaddedIsCanonical(parts[0]);
    }
  }

  lemma {:induction false} ZerosPrint(n: nat)
    ensures PrintsGroups(Zeros(n), seq(n, _ => 0)) && |Zeros(n)| == n
  {
    if n > 0 {
      ZerosPrint(n - 1);
      assert "0"[..0] == "" && PrintsGroup("0", 0);
    }
  }

  lemma SegmentsOfFull(parts: seq<string>, groups: Groups)
    requires PrintsGroups(parts, groups)
    ensures Segments(Join(parts, ':')) == parts
  {
    PrintsAreColonFree(parts, groups);
    JoinHasLoneColons(parts);
    SplitAtDouble(Join(parts, ':'), "");
    SplitOfJoin(parts, ':');
  }

  lemma HalfSplits(parts: seq<string>, groups: seq<bv16>)
    requires PrintsGroups(parts, groups)
    ensures SplitOrNone(Join(parts, ':')) == parts && LoneColons(Join(parts, ':'))
  {
    PrintsAreColonFree(parts, groups);
    JoinHasLoneColons(parts);
    if parts != [] { SplitOfJoin(parts, ':'); }
  }

  lemma PrintsConcat(a: seq<string>, b: seq<string>, g: seq<bv16>, h: seq<bv16>)
    requires PrintsGroups(a, g) && PrintsGroups(b, h)
    ensures PrintsGroups(a + b, g + h)
  {
    forall k | 0 <= k < |a + b| ensures PrintsGroup((a + b)[k], (g + h)[k]) {
      if k < |a| { assert PrintsGroup(a[k], g[k]); } else { assert PrintsGroup(b[k - |a|], h[k - |a|]); }
    }
  }

  lemma SegmentsOfHalves(ip: string, halves: seq<string>)
    requires Split(ip, "::") == halves && |halves| == 2
    ensures var left, right := SplitOrNone(halves[0]), SplitOrNone(halves[1]);
            Segments(ip) == left + Zeros(8 - |left| - |right|) + right
  {
    hide Split, SplitOrNone, Zeros;
  }

  lemma CompressedPrints(ip: string, groups: Groups, i: nat, j: nat, left: seq<string>, right: seq<string>)
    requires PrintsCompressed(ip, groups, i, j, left, right)
    ensures i < j && PrintsGroups(left + Zeros(j - i) + right, groups)
  {
    hide PrintsGroup, Zeros;
    var zeros: seq<bv16> := seq(j - i, _ => 0);
    ZerosPrint(j - i);
    PrintsConcat(left, Zeros(j - i), groups[..i], zeros);
    PrintsConcat(left + Zeros(j - i), right, groups[..i] + zeros, groups[j..]);
    assert groups[i..j] == zeros;
    assert groups == groups[..i] + groups[i..j] + groups[j..];
  }

  lemma CompressedSplits(ip: string, groups: Groups, i: nat, j: nat, left: seq<string>, right: seq<string>)
    requires PrintsCompressed(ip, groups, i, j, left, right)
    ensures Split(ip, "::") == [Join(left, ':'), Join(right, ':')]
    ensures SplitOrNone(Join(left, ':')) == left && SplitOrNone(Join(right, ':')) == right
    ensures 8 - |left| - |right| == j - i
  {
    HalfSplits(left, groups[..i]);
    HalfSplits(right, groups[j..]);
    hide Split, Join, SplitOrNone, LoneColons, PrintsGroup;
    SplitAtDouble(Join(left, ':'), Join(right, ':'));
  }

  lemma SegmentsOfCompressed(ip: string, groups: Groups, i: nat, j: nat, left: seq<string>, right: seq<string>)
    requires PrintsCompressed(ip, groups, i, j, left, right)
    ensures Segments(ip) == left + Zeros(j - i) + right && PrintsGroups(Segments(ip), groups)
  {
    hide PrintsGroup, PrintsGroups, PrintsCompressed, Split, SplitOrNone, Join, Zeros, Segments;
    CompressedPrints(ip, groups, i, j, left, right);
    CompressedSplits(ip, groups, i, j, left, right);
    SegmentsOfHalves(ip, [Join(left, ':'), Join(right, ':')]);
  }

  /** Whatever printing of an address it is given, `normalizeIpv6` returns the one canonical form. */
  lemma NormalizeIsCanonical(ip: string, groups: Groups)
    requires Prints(ip, groups)
    ensures NormalizeIpv6(ip) == Canonical(groups)
  {
    if parts :| PrintsGroups(parts, groups) && ip == Join(parts, ':') {
      SegmentsOfFull(parts, groups);
      PaddedPrints(parts, groups);
    } else {
      var i: nat, j: nat, left, right :| PrintsCompressed(ip, groups, i, j, left, right);
      SegmentsOfCompressed(ip, groups, i, j, left, right);
      PaddedPrints(Segments(ip), groups);
    }
  }

  // ----- reading the canonical form ----------------------------------------------------------------------------

  lemma CanonicalIsColonFree(groups: seq<bv16>)
    ensures PartsWithout(CanonicalParts(groups), ':')
  {
    hide Hex4;
  }

  lemma Hex4Injective(a: bv16, b: bv16)
    requires Hex4(a) == Hex4(b)
    ensures a == b
  {
    hide Hex4, ParseHex;
    ParseOfHex4(a);
    ParseOfHex4(b);
  }

  /** Different addresses have different canonical forms; this also holds for parts of addresses. */
  lemma CanonicalInjective(a: seq<bv16>, b: seq<bv16>)
    requires a != [] && b != [] && Text(a) == Text(b)
    ensures a == b
  {
    hide Hex4, Join;
    CanonicalIsColonFree(a);
    CanonicalIsColonFree(b);
    JoinInjective(CanonicalParts(a), CanonicalParts(b), ':');
    forall i | 0 <= i < |a| ensures a[i] == b[i] {
      assert CanonicalParts(a)[i] == CanonicalParts(b)[i];
      Hex4Injective(a[i], b[i]);
    }
  }

  lemma {:induction false} CanonicalLength(groups: seq<bv16>)
    requires groups != []
    ensures |Text(groups)| == 5 * |groups| - 1
  {
    if |groups| > 1 { CanonicalLength(groups[1..]); }
    hide Hex4;
  }

  lemma CanonicalConcat(a: seq<bv16>, b: seq<bv16>)
    ensures CanonicalParts(a + b) == CanonicalParts(a) + CanonicalParts(b)
  {
    hide Hex4, CanonicalParts;
    assert forall i :: 0 <= i < |a + b| ==> CanonicalParts(a + b)[i] == Hex4((a + b)[i]);
  }

  /** Cutting the canonical form after `n` groups. */
  lemma CanonicalCut(groups: Groups, n: nat)
    requires 0 < n < 8
    ensures var c := Canonical(groups);
            && |c| == 39
            && c[..5 * n - 1] == Text(groups[..n])
            && c[..5 * n] == Text(groups[..n]) + ":"
            && c[5 * n..] == Text(groups[n..])
  {
    assert groups == groups[..n] + groups[n..];
    CanonicalConcat(groups[..n], groups[n..]);
    JoinConcat(CanonicalParts(groups[..n]), CanonicalParts(groups[n..]), ':');
    CanonicalLength(groups);
    CanonicalLength(groups[..n]);
    hide Join, CanonicalParts;
  }

  const LOOPBACK: Groups := [0, 0, 0, 0, 0, 0, 0, 1]
  const UNSPECIFIED: Groups := [0, 0, 0, 0, 0, 0, 0, 0]
  const MAPPED_PREFIX: seq<bv16> := [0, 0, 0, 0, 0, 0xffff]

  lemma TextOfOne(v: bv16)
    ensures Text([v]) == Hex4(v)
  {
    hide Hex4;
  }

  lemma TextAfterZero(groups: seq<bv16>)
    requires groups != []
    ensures Text([0] + groups) == "0000:" + Text(groups)
  {
    assert Hex4(0) == "0000";
    hide Hex4;
    assert ([0] + groups)[1..] == groups;
    assert CanonicalParts([0] + groups)[1..] == CanonicalParts(groups);
  }

  lemma TextAfterFiveZeros(groups: seq<bv16>)
    requires groups != []
    ensures Text([0, 0, 0, 0, 0] + groups) == "0000:0000:0000:0000:0000:" + Text(groups)
  {
    hide Text;
    TextAfterZero(groups);
    TextAfterZero([0] + groups);
    TextAfterZero([0, 0] + groups);
    TextAfterZero([0, 0, 0] + groups);
    TextAfterZero([0, 0, 0, 0] + groups);
    assert [0] + ([0] + groups) == [0, 0] + groups && [0] + ([0, 0] + groups) == [0, 0, 0] + groups;
    assert [0] + ([0, 0, 0] + groups) == [0, 0, 0, 0] + groups
           && [0] + ([0, 0, 0, 0] + groups) == [0, 0, 0, 0, 0] + groups;
  }

  const SEVEN_ZERO_GROUPS := "0000:0000:0000:0000:0000:0000:0000:"

  lemma ZeroGroupTexts(rest: string)
    ensures "0000:0000:0000:0000:0000:" + ("0000:" + ("0000:" + rest)) == SEVEN_ZERO_GROUPS + rest
  {
    assert "0000:0000:0000:0000:0000:" + "0000:" + "0000:" == SEVEN_ZERO_GROUPS;
  }

  lemma TextAfterSevenZeros(v: bv16)
    ensures Text([0, 0, 0, 0, 0, 0, 0, v]) == SEVEN_ZERO_GROUPS + Hex4(v)
  {
    hide Text, Hex4;
    TextOfOne(v);
    TextAfterZero([v]);
    TextAfterZero([0] + [v]);
    TextAfterFiveZeros([0] + ([0] + [v]));
    assert [0, 0, 0, 0, 0, 0, 0, v] == [0, 0, 0, 0, 0] + ([0] + ([0] + [v]));
    ZeroGroupTexts(Hex4(v));
  }

  lemma LoopbackText()
    ensures Canonical(LOOPBACK) == "0000:0000:0000:0000:0000:0000:0000:0001"
  {
    assert Hex4(1) == "0001";
    assert Canonical(LOOPBACK) == Text(LOOPBACK);
    hide Text, Hex4, Canonical;
    TextAfterSevenZeros(1);
    assert SEVEN_ZERO_GROUPS + "0001" == "0000:0000:0000:0000:0000:0000:0000:0001";
  }

  lemma UnspecifiedText()
    ensures Canonical(UNSPECIFIED) == "0000:0000:0000:0000:0000:0000:0000:0000"
  {
    assert Hex4(0) == "0000";
    assert Canonical(UNSPECIFIED) == Text(UNSPECIFIED);
    hide Text, Hex4, Canonical;
    TextAfterSevenZeros(0);
    assert SEVEN_ZERO_GROUPS + "0000" == "0000:0000:0000:0000:0000:0000:0000:0000";
  }

  lemma MappedPrefixText()
    ensures Text(MAPPED_PREFIX) + ":" == "0000:0000:0000:0000:0000:ffff:"
  {
    assert Hex4(0xffff) == "ffff";
    hide Text, Hex4;
    TextOfOne(0xffff);
    TextAfterFiveZeros([0xffff]);
    assert MAPPED_PREFIX == [0, 0, 0, 0, 0] + [0xffff];
  }

  /** No text prints two addresses. */
  lemma PrintingDeterminesAddress(ip: string, a: Groups, b: Groups)
    requires Prints(ip, a) && Prints(ip, b)
    ensures a == b
  {
    hide Prints, Text;
    NormalizeIsCanonical(ip, a);
    NormalizeIsCanonical(ip, b);
    CanonicalInjective(a, b);
  }

  // ----- the verdicts --------------------------------------------------------------------------------------------

  /** `&` with the two masks asks whether the first group lies in fc00::/7 or fe80::/10. */
  lemma MasksAreRanges(v: bv16)
    ensures v & 0xfe00 == 0xfc00 <==> 0xfc00 <= v <= 0xfdff
    ensures v & 0xffc0 == 0xfe80 <==> 0xfe80 <= v <= 0xfebf
  {
  }

  lemma OctetOfSnoc(s: string, c: char)
    ensures OctetOf(s + [c]) == if OctetOf(s).None? then None else NextOctet(OctetOf(s).value, c)
  {
    hide NextOctet;
    assert (s + [c])[..|s|] == s && (s + [c])[|s|] == c;
  }

  lemma DecimalShape(n: bv16) returns (h: bv16, t: bv16, u: bv16)
    requires n <= 255
    ensures h < 10 && t < 10 && u < 10 && h * 10 + t <= 25 && (h * 10 + t) * 10 + u == n
    ensures Decimal(n) == if n < 10 then [CharOf(u)]
                          else if n < 100 then [CharOf(t), CharOf(u)]
                          else [CharOf(h), CharOf(t), CharOf(u)]
    ensures (n < 100 ==> h == 0) && (n < 10 ==> t == 0)
  {
    hide CharOf;
    h, t, u := n / 100, n / 10 % 10, n % 10;
    assert n < 100 ==> n / 10 % 10 == n / 10;
    assert n < 10 ==> n % 10 == n;
  }

  lemma OneDigitOctet(u: bv16)
    requires u < 10
    ensures OctetOf([CharOf(u)]) == Some(u) && CharOf(u) != '.'
  {
    DecimalStep(0, u);
    assert OctetOf("") == Some(0);
    hide CharOf, OctetOf, NextOctet;
    OctetOfMore("", CharOf(u), 0);
    assert "" + [CharOf(u)] == [CharOf(u)];
  }

  lemma TwoDigitOctet(t: bv16, u: bv16)
    requires t < 10 && u < 10
    ensures OctetOf([CharOf(t), CharOf(u)]) == Some(t * 10 + u)
  {
    OneDigitOctet(t);
    DecimalStep(t, u);
    hide CharOf, OctetOf, NextOctet;
    OctetOfMore([CharOf(t)], CharOf(u), t);
    assert [CharOf(t)] + [CharOf(u)] == [CharOf(t), CharOf(u)];
  }

  lemma ThreeDigitOctet(h: bv16, t: bv16, u: bv16)
    requires h < 10 && t < 10 && u < 10 && h * 10 + t <= 25 && (h * 10 + t) * 10 + u <= 255
    ensures OctetOf([CharOf(h), CharOf(t), CharOf(u)]) == Some((h * 10 + t) * 10 + u)
  {
    TwoDigitOctet(h, t);
    DecimalStep(h * 10 + t, u);
    hide CharOf, OctetOf, NextOctet;
    OctetOfMore([CharOf(h), CharOf(t)], CharOf(u), h * 10 + t);
    assert [CharOf(h), CharOf(t)] + [CharOf(u)] == [CharOf(h), CharOf(t), CharOf(u)];
  }

  lemma OctetOfMore(s: string, c: char, v: bv16)
    requires OctetOf(s) == Some(v)
    ensures OctetOf(s + [c]) == NextOctet(v, c)
  {
    hide OctetOf, NextOctet;
    OctetOfSnoc(s, c);
  }

  lemma DecimalIsOctet(n: bv16)
    requires n <= 255
    ensures OctetOf(Decimal(n)) == Some(n) && '.' !in Decimal(n)
  {
    hide CharOf, OctetOf, Decimal;
    var h, t, u := DecimalShape(n);
    OneDigitOctet(h);
    OneDigitOctet(t);
    OneDigitOctet(u);
    TwoDigitOctet(t, u);
    ThreeDigitOctet(h, t, u);
  }

  lemma DecimalStep(v: bv16, d: bv16)
    requires v <= 25 && d < 10 && v * 10 + d <= 255
    ensures NextOctet(v, CharOf(d)) == Some(v * 10 + d) && CharOf(d) != '.'
  {
    DigitOfChar(d);
  }

  lemma FourParts(a: string, b: string, c: string, d: string)
    requires '.' !in a && '.' !in b && '.' !in c && '.' !in d
    ensures Split(Join([a, b, c, d], '.'), ".") == [a, b, c, d]
  {
    hide Split, Join;
    SplitOfJoin([a, b, c, d], '.');
  }

  /** Private IPv4 addresses by the number of their first two octets: 0.0.0.0/8, 10.0.0.0/8, 127.0.0.0/8,
      169.254.0.0/16, 172.16.0.0/12 and 192.168.0.0/16. */
  predicate PrivateNetwork(head: bv16) {
    || head <= 0x00ff || 0x0a00 <= head <= 0x0aff || 0x7f00 <= head <= 0x7fff
    || head == 0xa9fe || 0xac10 <= head <= 0xac1f || head == 0xc0a8
  }

  lemma OctetsAreNetwork(a: bv16, b: bv16)
    requires a <= 255 && b <= 255
    ensures PrivateOctets(a, b) <==> PrivateNetwork(a * 256 + b)
  {
  }

  lemma GroupIsNetwork(v: bv16)
    ensures PrivateOctets(High(v), Low(v)) <==> PrivateNetwork(v)
  {
  }

  /** Printing four octets and judging the text is judging the address by its number. */
  lemma Ipv4TextVerdict(a: bv16, b: bv16, c: bv16, d: bv16)
    requires a <= 255 && b <= 255 && c <= 255 && d <= 255
    ensures IsPrivateIpv4(Ipv4Text(a, b, c, d)) <==> PrivateNetwork(a * 256 + b)
  {
    OctetsAreNetwork(a, b);
    OctetsTextVerdict(a, b, c, d);
  }

  lemma OctetsTextVerdict(a: bv16, b: bv16, c: bv16, d: bv16)
    requires a <= 255 && b <= 255 && c <= 255 && d <= 255
    ensures IsPrivateIpv4(Ipv4Text(a, b, c, d)) <==> PrivateOctets(a, b)
  {
    hide OctetOf, Decimal, Split, Join, PrivateOctets;
    DecimalIsOctet(a);
    DecimalIsOctet(b);
    DecimalIsOctet(c);
    DecimalIsOctet(d);
    FourParts(Decimal(a), Decimal(b), Decimal(c), Decimal(d));
  }

  /** Private addresses by number: ::1, ::, fc00::/7, fe80::/10, and ::ffff:0:0/96 with a private IPv4 address
      inside. */
  predicate PrivateAddress(groups: Groups) {
    || groups == LOOPBACK
    || groups == UNSPECIFIED
    || 0xfc00 <= groups[0] <= 0xfdff
    || 0xfe80 <= groups[0] <= 0xfebf
    || (groups[..6] == MAPPED_PREFIX && PrivateNetwork(groups[6]))
  }

  lemma MappedTail(groups: Groups)
    ensures |Canonical(groups)| == 39
    ensures var tail := Split(Canonical(groups)[30..], ":");
            tail == [Hex4(groups[6]), Hex4(groups[7])] && ParseHex(tail[0]) == groups[6]
            && ParseHex(tail[1]) == groups[7]
  {
    CanonicalCut(groups, 6);
    CanonicalIsColonFree(groups[6..]);
    hide Hex4, ParseHex, Split, Join;
    SplitOfJoin(CanonicalParts(groups[6..]), ':');
    ParseOfHex4(groups[6]);
    ParseOfHex4(groups[7]);
    assert CanonicalParts(groups[6..]) == [Hex4(groups[6]), Hex4(groups[7])];
  }

  lemma MappedPrefixIff(groups: Groups)
    ensures |Canonical(groups)| == 39
    ensures Canonical(groups)[..30] == "0000:0000:0000:0000:0000:ffff:" <==> groups[..6] == MAPPED_PREFIX
  {
    CanonicalCut(groups, 6);
    MappedPrefixText();
    hide Text, CanonicalParts;
    if Canonical(groups)[..30] == "0000:0000:0000:0000:0000:ffff:" {
      assert (Text(groups[..6]) + ":")[..29] == (Text(MAPPED_PREFIX) + ":")[..29];
      CanonicalInjective(groups[..6], MAPPED_PREFIX);
    }
  }

  lemma FirstSegment(groups: Groups)
    ensures |Canonical(groups)| == 39 && ParseHex(Canonical(groups)[..4]) == groups[0]
  {
    CanonicalCut(groups, 1);
    assert groups[..1] == [groups[0]];
    hide Text, ParseHex;
    TextOfOne(groups[0]);
    ParseOfHex4(groups[0]);
  }

  lemma TailVerdict(groups: Groups)
    ensures |Canonical(groups)| == 39
    ensures IsPrivateTail(Canonical(groups)[30..]) <==> PrivateOctets(High(groups[6]), Low(groups[6]))
  {
    hide Canonical, Hex4, ParseHex, Split, IsPrivateIpv4, Ipv4Text, PrivateOctets, High, Low;
    MappedTail(groups);
    var hi, lo := groups[6], groups[7];
    OctetsFit(hi);
    OctetsFit(lo);
    OctetsTextVerdict(High(hi), Low(hi), High(lo), Low(lo));
  }

  lemma SpecialTexts(groups: Groups)
    ensures Canonical(groups) == "0000:0000:0000:0000:0000:0000:0000:0001" <==> groups == LOOPBACK
    ensures Canonical(groups) == "0000:0000:0000:0000:0000:0000:0000:0000" <==> groups == UNSPECIFIED
  {
    LoopbackText();
    UnspecifiedText();
    hide Text;
    if Canonical(groups) == Canonical(LOOPBACK) { CanonicalInjective(groups, LOOPBACK); }
    if Canonical(groups) == Canonical(UNSPECIFIED) { CanonicalInjective(groups, UNSPECIFIED); }
  }

  lemma CanonicalVerdict(groups: Groups)
    ensures IsPrivateNormalized(Canonical(groups)) <==> PrivateAddress(groups)
  {
    hide Canonical, ParseHex, PrivateOctets, PrivateNetwork, IsPrivateTail, High, Low;
    SpecialTexts(groups);
    FirstSegment(groups);
    MasksAreRanges(groups[0]);
    MappedPrefixIff(groups);
    TailVerdict(groups);
    GroupIsNetwork(groups[6]);
  }

  /** The verdict on any printing of an address is the verdict on its number: it depends on the address alone. */
  lemma VerdictDependsOnAddress(ip: string, groups: Groups)
    requires Prints(ip, groups)
    ensures IsPrivateIpv6(ip) <==> PrivateAddress(groups)
  {
    hide Prints, NormalizeIpv6, IsPrivateNormalized, PrivateAddress, Canonical;
    NormalizeIsCanonical(ip, groups);
    CanonicalVerdict(groups);
  }

  lemma OctetsFit(v: bv16)
    ensures High(v) <= 255 && Low(v) <= 255
  {
  }

  /** An IPv4-mapped address, however it is printed in hexadecimal groups, is judged like the IPv4 address inside. */
  lemma MappedAgreesWithIpv4(ip: string, hi: bv16, lo: bv16)
    requires Prints(ip, MAPPED_PREFIX + [hi, lo])
    ensures IsPrivateIpv6(ip) <==> IsPrivateIpv4(Ipv4Text(High(hi), Low(hi), High(lo), Low(lo)))
  {
    var groups: Groups := MAPPED_PREFIX + [hi, lo];
    MappedVerdict(groups, hi, lo);
    hide IsPrivateIpv4, IsPrivateIpv6, Ipv4Text, PrivateOctets, PrivateNetwork, Prints, PrivateAddress, High, Low;
    VerdictDependsOnAddress(ip, groups);
    OctetsFit(hi);
    OctetsFit(lo);
    OctetsTextVerdict(High(hi), Low(hi), High(lo), Low(lo));
    GroupIsNetwork(hi);
  }

  lemma MappedVerdict(groups: Groups, hi: bv16, lo: bv16)
    requires groups == MAPPED_PREFIX + [hi, lo]
    ensures PrivateAddress(groups) <==> PrivateNetwork(hi)
  {
    hide PrivateNetwork;
    assert groups[5] == 0xffff && groups[0] == 0 && groups[6] == hi && groups[..6] == MAPPED_PREFIX;
    assert LOOPBACK[5] == 0 && UNSPECIFIED[5] == 0;
  }
}
