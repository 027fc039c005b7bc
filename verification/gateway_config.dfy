/** The two parts of the gateway configuration that handshakes change: ephemeral inbound tokens
    (src/ephemeral-token.ts) and the peer list (upsertEphemeralPeer in index.ts). */
module GatewayConfigs {
  import opened Wrappers

  const TOKEN_LENGTH := 48
  const TOKEN_TTL_MS := 300000

  type Byte = b: int | 0 <= b < 256

  predicate IsLowerHex(c: char) {
    '0' <= c <= '9' || 'a' <= c <= 'f'
  }

  /** Exactly 48 lowercase hex characters. */
  predicate IsValidToken(value: string) {
    |value| == TOKEN_LENGTH && forall i :: 0 <= i < |value| ==> IsLowerHex(value[i])
  }

  function HexDigit(n: int): (c: char)
    requires 0 <= n < 16
    ensures IsLowerHex(c)
  {
    if n < 10 then '0' + n as char else 'a' + (n - 10) as char
  }

  function HexOf(bytes: seq<Byte>): string {
    if bytes == [] then "" else [HexDigit(bytes[0] / 16), HexDigit(bytes[0] % 16)] + HexOf(bytes[1..])
  }

  lemma {:induction false} HexShape(bytes: seq<Byte>)
    ensures |HexOf(bytes)| == 2 * |bytes|
    ensures forall i :: 0 <= i < |HexOf(bytes)| ==> IsLowerHex(HexOf(bytes)[i])
  {
    if bytes != [] { HexShape(bytes[1..]); }
  }

  /** The hex form of 24 random bytes is always accepted as a token. */
  lemma IssuedTokensAreValid(bytes: seq<Byte>)
    requires |bytes| == TOKEN_LENGTH / 2
    ensures IsValidToken(HexOf(bytes))
  {
    HexShape(bytes);
  }

  lemma HexDigitInjective(a: int, b: int)
    requires 0 <= a < 16 && 0 <= b < 16 && HexDigit(a) == HexDigit(b)
    ensures a == b
  {
  }

  /** Distinct random bytes give distinct tokens. */
  lemma {:induction false} HexIsInjective(a: seq<Byte>, b: seq<Byte>)
    requires HexOf(a) == HexOf(b)
    ensures a == b
  {
    HexShape(a);
    HexShape(b);
    if a != [] {
      var x, y := HexOf(a), HexOf(b);
      assert x[0] == y[0] && x[1] == y[1] && x[2..] == y[2..];
      assert x[2..] == HexOf(a[1..]) && y[2..] == HexOf(b[1..]);
      HexDigitInjective(a[0] / 16, b[0] / 16);
      HexDigitInjective(a[0] % 16, b[0] % 16);
      HexIsInjective(a[1..], b[1..]);
    }
  }

  function DigitValue(c: char): (n: int)
    requires IsLowerHex(c)
    ensures 0 <= n < 16 && HexDigit(n) == c
  {
    if c <= '9' then (c - '0') as int else (c - 'a') as int + 10
  }

  predicate IsHexText(text: string) {
    |text| % 2 == 0 && forall i :: 0 <= i < |text| ==> IsLowerHex(text[i])
  }

  function BytesOf(text: string): (bytes: seq<Byte>)
    requires IsHexText(text)
    ensures |bytes| == |text| / 2
  {
    if text == "" then [] else [16 * DigitValue(text[0]) + DigitValue(text[1])] + BytesOf(text[2..])
  }

  lemma {:induction false} HexOfBytesOf(text: string)
    requires IsHexText(text)
    ensures HexOf(BytesOf(text)) == text
  {
    if text != "" {
      HexOfBytesOf(text[2..]);
      var b: Byte, rest := 16 * DigitValue(text[0]) + DigitValue(text[1]), BytesOf(text[2..]);
      assert b / 16 == DigitValue(text[0]) && b % 16 == DigitValue(text[1]);
      assert ([b] + rest)[1..] == rest;
      assert text == [text[0], text[1]] + text[2..];
    }
  }

  /** A token is valid if and only if it could have been issued: it is the hex form of some 24 bytes. */
  lemma ValidIffIssuable(token: string)
    ensures IsValidToken(token) <==> exists bytes: seq<Byte> :: |bytes| == 24 && HexOf(bytes) == token
  {
    if IsValidToken(token) {
      HexOfBytesOf(token);
      assert |BytesOf(token)| == 24;
    }
    if bytes: seq<Byte> :| |bytes| == 24 && HexOf(bytes) == token { HexShape(bytes); }
  }

  // ----- peers ------------------------------------------------------------------------------------------

  datatype Peer = Peer(name: string, agentCardUrl: string, token: Option<string>)

  function PeerIndex(peers: seq<Peer>, name: string): (i: nat)
    ensures i <= |peers|
    ensures forall j :: 0 <= j < i ==> peers[j].name != name
    ensures i < |peers| ==> peers[i].name == name
  {
    if peers == [] || peers[0].name == name then 0 else 1 + PeerIndex(peers[1..], name)
  }

  function Upsert(peers: seq<Peer>, name: string, url: string, token: string): seq<Peer> {
    var i := PeerIndex(peers, name);
    if i < |peers| then peers[i := Peer(name, url, Some(token))] else peers + [Peer(name, url, Some(token))]
  }

  ghost predicate DistinctNames(peers: seq<Peer>) {
    forall i, j :: 0 <= i < j < |peers| ==> peers[i].name != peers[j].name
  }

  /** Looking the name up afterwards finds the new credentials, every other peer is where it was,
      and names stay distinct. */
  lemma UpsertInstalls(peers: seq<Peer>, name: string, url: string, token: string)
    ensures var r := Upsert(peers, name, url, token);
            && PeerIndex(r, name) < |r|
            && r[PeerIndex(r, name)] == Peer(name, url, Some(token))
            && |peers| <= |r| <= |peers| + 1
            && (forall i :: 0 <= i < |peers| && i != PeerIndex(r, name) ==> r[i] == peers[i])
            && (DistinctNames(peers) ==> DistinctNames(r))
  {
    var i, r := PeerIndex(peers, name), Upsert(peers, name, url, token);
    assert r[i].name == name && forall j :: 0 <= j < i ==> r[j].name != name;
    assert PeerIndex(r, name) == i;
  }

  class GatewayConfig {
    var peers: seq<Peer>
    var validTokens: set<string>
    /** Pending expiry timers: token and the time at which it is due. */
    var timers: map<string, int>

    constructor (peers: seq<Peer>, validTokens: set<string>)
      ensures this.peers == peers && this.validTokens == validTokens && timers == map[]
    {
      this.peers, this.validTokens, timers := peers, validTokens, map[];
    }

    method UpsertEphemeralPeer(name: string, url: string, token: string)
      modifies this`peers
      ensures peers == Upsert(old(peers), name, url, token)
      ensures PeerIndex(peers, name) < |peers| && peers[PeerIndex(peers, name)] == Peer(name, url, Some(token))
      ensures |old(peers)| <= |peers| <= |old(peers)| + 1
      ensures forall j :: 0 <= j < |old(peers)| && j != PeerIndex(peers, name) ==> peers[j] == old(peers)[j]
    {
      UpsertInstalls(peers, name, url, token);
      var i := 0;
      while i < |peers| && peers[i].name != name
        invariant i <= |peers|
        invariant forall j :: 0 <= j < i ==> peers[j].name != name
      {
        i := i + 1;
      }
      assert i == PeerIndex(peers, name);
      if i < |peers| {
        peers := peers[i := peers[i].(agentCardUrl := url)];
        peers := peers[i := peers[i].(token := Some(token))];
      } else {
        peers := peers + [Peer(name, url, Some(token))];
      }
    }

    method IssueEphemeralInboundToken(randomBytes: seq<Byte>, now: int) returns (token: string, expiresAt: int)
      requires |randomBytes| == TOKEN_LENGTH / 2
      modifies this`validTokens, this`timers
      ensures token == HexOf(randomBytes) && IsValidToken(token) && expiresAt == now + TOKEN_TTL_MS
      ensures validTokens == old(validTokens) + {token} && timers == old(timers)[token := expiresAt]
    {
      IssuedTokensAreValid(randomBytes);
      token := HexOf(randomBytes);
      validTokens := validTokens + {token};
      expiresAt := now + TOKEN_TTL_MS;
      timers := timers[token := expiresAt];
    }

    method TimerFires(token: string)
      requires token in timers
      modifies this`validTokens, this`timers
      ensures validTokens == old(validTokens) - {token} && timers == old(timers) - {token}
    {
      validTokens := validTokens - {token};
      timers := timers - {token};
    }
  }
}
