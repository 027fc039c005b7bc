/** The order in which transports are tried (src/transport-fallback.ts), and which endpoint of a connection
    descriptor names the agent card (src/connection-descriptor.ts). */
module Transports {
  import opened StableSorting

  datatype TransportEndpoint = TransportEndpoint(url: string, transport: string)

  const PRIORITY_ORDER := ["JSONRPC", "HTTP+JSON", "GRPC"]

  function IndexIn(names: seq<string>, name: string): (i: nat)
    ensures i <= |names| && (i < |names| <==> name in names)
    ensures i < |names| ==> names[i] == name
  {
    if names == [] || names[0] == name then 0 else 1 + IndexIn(names[1..], name)
  }

  /** The place in the fallback order; unknown transports share the last one. */
  function Rank(e: TransportEndpoint): real {
    IndexIn(PRIORITY_ORDER, e.transport) as real
  }

  /** JSON-RPC comes first, then HTTP with JSON, then gRPC, then every other transport. */
  lemma RankIsTransport(e: TransportEndpoint)
    ensures Rank(e) == match e.transport
                       case "JSONRPC" => 0.0
                       case "HTTP+JSON" => 1.0
                       case "GRPC" => 2.0
                       case _ => 3.0
  {
    var names := PRIORITY_ORDER;
    assert names[0] == "JSONRPC" && names[1] == "HTTP+JSON" && names[2] == "GRPC";
  }

  predicate IsKnown(e: TransportEndpoint) {
    e.transport in PRIORITY_ORDER
  }

  predicate IsUnknown(e: TransportEndpoint) {
    !IsKnown(e)
  }

  method OrderTransports(interfaces: seq<TransportEndpoint>) returns (ordered: seq<TransportEndpoint>)
    ensures ordered == Sort(interfaces, Rank)
    ensures IsStableSort(ordered, interfaces, Rank)
  {
    var known: seq<TransportEndpoint> := [];
    var unknown: seq<TransportEndpoint> := [];
    for i := 0 to |interfaces|
      invariant known == Filter(interfaces[..i], IsKnown)
      invariant unknown == Filter(interfaces[..i], IsUnknown)
    {
      FilterSnoc(interfaces[..i], interfaces[i], IsKnown);
      FilterSnoc(interfaces[..i], interfaces[i], IsUnknown);
      assert interfaces[..i + 1] == interfaces[..i] + [interfaces[i]];
      if interfaces[i].transport in PRIORITY_ORDER {
        known := known + [interfaces[i]];
      } else {
        unknown := unknown + [interfaces[i]];
      }
    }
    assert interfaces[..|interfaces|] == interfaces;
    known := Sort(known, Rank);
    BucketsAreStableSort(interfaces);
    SortIsStable(interfaces, Rank);
    StableSortIsUnique(known + unknown, Sort(interfaces, Rank), interfaces, Rank);
    ordered := known + unknown;
  }

  lemma {:induction false} WithKeyConcat<T>(s: seq<T>, t: seq<T>, key: T -> real, k: real)
    ensures WithKey(s + t, key, k) == WithKey(s, key, k) + WithKey(t, key, k)
  {
    if s == [] {
      assert s + t == t;
    } else {
      WithKeyConcat(s[1..], t, key, k);
      assert (s + t)[1..] == s[1..] + t;
      var head, p, q := if key(s[0]) == k then [s[0]] else [], WithKey(s[1..], key, k), WithKey(t, key, k);
      assert head + (p + q) == (head + p) + q;
    }
  }

  lemma {:induction false} BucketsKeepGroups(s: seq<TransportEndpoint>, k: real)
    ensures WithKey(Filter(s, IsKnown), Rank, k) + WithKey(Filter(s, IsUnknown), Rank, k) == WithKey(s, Rank, k)
    ensures k == |PRIORITY_ORDER| as real ==> WithKey(Filter(s, IsKnown), Rank, k) == []
    ensures k != |PRIORITY_ORDER| as real ==> WithKey(Filter(s, IsUnknown), Rank, k) == []
  {
    if s != [] {
      BucketsKeepGroups(s[1..], k);
      var known, unknown := Filter(s[1..], IsKnown), Filter(s[1..], IsUnknown);
      assert ([s[0]] + known)[1..] == known && ([s[0]] + unknown)[1..] == unknown;
      assert [] + known == known && [] + unknown == unknown;
    }
  }

  lemma BucketsAreStableSort(s: seq<TransportEndpoint>)
    ensures IsStableSort(Sort(Filter(s, IsKnown), Rank) + Filter(s, IsUnknown), s, Rank)
  {
    var known, unknown := Filter(s, IsKnown), Filter(s, IsUnknown);
    SortIsStable(known, Rank);
    FilterMembers(s, IsUnknown);
    assert forall j :: 0 <= j < |unknown| ==> unknown[j] in unknown && Rank(unknown[j]) == |PRIORITY_ORDER| as real;
    assert forall e :: Rank(e) <= |PRIORITY_ORDER| as real;
    forall k: real ensures WithKey(Sort(known, Rank) + unknown, Rank, k) == WithKey(s, Rank, k) {
      WithKeyConcat(Sort(known, Rank), unknown, Rank, k);
      assert WithKey(Sort(known, Rank), Rank, k) == WithKey(known, Rank, k);
      BucketsKeepGroups(s, k);
    }
  }
}

module ConnectionDescriptors {
  import opened Wrappers
  import opened StableSorting
  import opened Transports

  const A2A_TRANSPORT_PRIORITY := ["jsonrpc", "http-json", "grpc"]

  /** Protocol and transport are already trimmed and in lower case, the metadata URL is trimmed, and `derivedUrl` is
      what the URL parser makes of the endpoint's own URL. */
  datatype ConnectionEndpoint = ConnectionEndpoint(
    protocol: string, transport: string, metadataUrl: Option<string>, derivedUrl: Option<string>)

  function Priority(e: ConnectionEndpoint): real {
    IndexIn(A2A_TRANSPORT_PRIORITY, e.transport) as real
  }

  predicate IsA2a(e: ConnectionEndpoint) {
    e.protocol == "a2a"
  }

  predicate HasMetadataUrl(e: ConnectionEndpoint) {
    e.metadataUrl.Some? && e.metadataUrl.value != ""
  }

  predicate HasDerivedUrl(e: ConnectionEndpoint) {
    e.derivedUrl.Some?
  }

  function ScannedUrl(endpoints: seq<ConnectionEndpoint>): Option<string> {
    var sorted := Sort(Filter(endpoints, IsA2a), Priority);
    if FirstHit(sorted, HasMetadataUrl).Some? then FirstHit(sorted, HasMetadataUrl).value.metadataUrl
    else if FirstHit(sorted, HasDerivedUrl).Some? then FirstHit(sorted, HasDerivedUrl).value.derivedUrl
    else None
  }

  method ResolveA2aAgentCardUrl(endpoints: seq<ConnectionEndpoint>) returns (url: Option<string>)
    ensures url == ScannedUrl(endpoints)
  {
    var sorted := Sort(Filter(endpoints, IsA2a), Priority);
    for i := 0 to |sorted|
      invariant FirstHit(sorted, HasMetadataUrl) == FirstHit(sorted[i..], HasMetadataUrl)
    {
      if HasMetadataUrl(sorted[i]) {
        return sorted[i].metadataUrl;
      }
      assert sorted[i..][1..] == sorted[i + 1..];
    }
    for i := 0 to |sorted|
      invariant FirstHit(sorted, HasDerivedUrl) == FirstHit(sorted[i..], HasDerivedUrl)
    {
      if HasDerivedUrl(sorted[i]) {
        return sorted[i].derivedUrl;
      }
      assert sorted[i..][1..] == sorted[i + 1..];
    }
    return None;
  }

  /** Which endpoints can name the agent card at all: those of the protocol that have a metadata URL or yield one. */
  predicate IsCandidate(e: ConnectionEndpoint) {
    e.protocol == "a2a" && ((e.metadataUrl.Some? && |e.metadataUrl.value| > 0) || e.derivedUrl.Some?)
  }

  /** Metadata before derivation, then the transport: JSON-RPC, HTTP with JSON, gRPC, anything else. */
  function Cost(e: ConnectionEndpoint): real {
    (match e.transport
     case "jsonrpc" => 0.0
     case "http-json" => 1.0
     case "grpc" => 2.0
     case _ => 3.0)
    + if e.metadataUrl.Some? && |e.metadataUrl.value| > 0 then 0.0 else 4.0
  }

  function UrlOf(e: ConnectionEndpoint): Option<string> {
    if e.metadataUrl.Some? && |e.metadataUrl.value| > 0 then e.metadataUrl else e.derivedUrl
  }

  lemma PriorityIsTransport(e: ConnectionEndpoint)
    ensures Priority(e) == match e.transport
                           case "jsonrpc" => 0.0
                           case "http-json" => 1.0
                           case "grpc" => 2.0
                           case _ => 3.0
  {
    var names := A2A_TRANSPORT_PRIORITY;
    assert names[0] == "jsonrpc" && names[1] == "http-json" && names[2] == "grpc";
  }

  /** The two passes over the sorted endpoints pick the one endpoint that is least by metadata, transport priority
      and position, and there is a result whenever some endpoint is a candidate. */
  lemma ResolutionIsOptimal(endpoints: seq<ConnectionEndpoint>)
    ensures if forall e :: e in endpoints ==> !IsCandidate(e) then ScannedUrl(endpoints) == None
            else exists i: nat :: IsBest(endpoints, i, IsCandidate, Cost)
                                  && ScannedUrl(endpoints) == UrlOf(endpoints[i])
  {
    var a2a := Filter(endpoints, IsA2a);
    var withMetadata, withDerived := Both(IsA2a, HasMetadataUrl), Both(IsA2a, HasDerivedUrl);
    SortThenScanIsBest(a2a, HasMetadataUrl, Priority);
    SortThenScanIsBest(a2a, HasDerivedUrl, Priority);
    BestOfFilter(endpoints, IsA2a, HasMetadataUrl, Priority);
    BestOfFilter(endpoints, IsA2a, HasDerivedUrl, Priority);
    BestIsOptimal(endpoints, withMetadata, Priority);
    BestIsOptimal(endpoints, withDerived, Priority);
    assert forall e :: withMetadata(e) == (IsA2a(e) && HasMetadataUrl(e));
    assert forall e :: withDerived(e) == (IsA2a(e) && HasDerivedUrl(e));
    if Best(endpoints, withMetadata, Priority).Some? {
      var i: nat :| IsBest(endpoints, i, withMetadata, Priority)
                    && endpoints[i] == Best(endpoints, withMetadata, Priority).value;
      MetadataWins(endpoints, i, withMetadata);
    } else if Best(endpoints, withDerived, Priority).Some? {
      var i: nat :| IsBest(endpoints, i, withDerived, Priority)
                    && endpoints[i] == Best(endpoints, withDerived, Priority).value;
      assert forall j :: 0 <= j < |endpoints| ==> endpoints[j] in endpoints && !withMetadata(endpoints[j]);
      DerivationNext(endpoints, i, withDerived);
    }
  }

  lemma MetadataWins(endpoints: seq<ConnectionEndpoint>, i: nat, withMetadata: ConnectionEndpoint -> bool)
    requires forall e :: withMetadata(e) == (IsA2a(e) && HasMetadataUrl(e))
    requires IsBest(endpoints, i, withMetadata, Priority)
    ensures IsBest(endpoints, i, IsCandidate, Cost)
  {
    forall e ensures Cost(e) == Priority(e) + if HasMetadataUrl(e) then 0.0 else 4.0 { PriorityIsTransport(e); }
  }

  lemma DerivationNext(endpoints: seq<ConnectionEndpoint>, i: nat, withDerived: ConnectionEndpoint -> bool)
    requires forall e :: withDerived(e) == (IsA2a(e) && HasDerivedUrl(e))
    requires forall j :: 0 <= j < |endpoints| ==> !(IsA2a(endpoints[j]) && HasMetadataUrl(endpoints[j]))
    requires IsBest(endpoints, i, withDerived, Priority)
    ensures IsBest(endpoints, i, IsCandidate, Cost)
  {
    forall e ensures Cost(e) == Priority(e) + if HasMetadataUrl(e) then 0.0 else 4.0 { PriorityIsTransport(e); }
  }
}
