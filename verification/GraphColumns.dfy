/**
 * What the columns of a graph node count, said from the inventory: open ports and findings of an asset,
 * sharers and findings of an address, what is shown for a port (backend/routes/assets.py).
 */
module GraphColumns {
  import opened Results
  import opened Scope
  import opened Strings
  import opened Graph

  /** The entries of an asset's port list that are open. */
  function OpenPositions(entries: seq<PortEntry>): set<int> {
    set i | 0 <= i < |entries| && entries[i].state == "open" && entries[i].port.Some?
  }

  lemma OpenOneMore(front: seq<PortEntry>, e: PortEntry)
    ensures |OpenPositions(front + [e])| == |OpenPositions(front)| + if e.state == "open" && e.port.Some? then 1 else 0
  {
    var open, all := OpenPositions(front), front + [e];
    if e.state == "open" && e.port.Some? {
      assert OpenPositions(all) == open + {|front|};
    } else {
      assert OpenPositions(all) == open;
    }
  }

  lemma {:induction false} OpenAmongCounts(host: Host, entries: seq<PortEntry>)
    ensures |OpenAmong(host, entries)| == |OpenPositions(entries)|
  {
    if entries != [] {
      var front, e := entries[..|entries| - 1], entries[|entries| - 1];
      assert entries == front + [e];
      OpenAmongCounts(host, front);
      OpenOneMore(front, e);
    }
  }

  predicate OnAddress(a: Asset, ip: string) {
    HasIp(a) && a.ip.value == ip
  }

  /** The weight of the assets on one address. */
  function WeightOn(w: Asset -> nat, assets: seq<Asset>, ip: string): nat {
    if assets == [] then 0 else (if OnAddress(assets[0], ip) then w(assets[0]) else 0) + WeightOn(w, assets[1..], ip)
  }

  /** The weight of the assets that have an address. */
  function WeightOfAddressed(w: Asset -> nat, assets: seq<Asset>): nat {
    if assets == [] then 0 else (if HasIp(assets[0]) then w(assets[0]) else 0) + WeightOfAddressed(w, assets[1..])
  }

  /** The weight over a list of addresses. */
  function WeightOver(w: Asset -> nat, assets: seq<Asset>, ips: seq<string>): nat {
    if ips == [] then 0 else WeightOn(w, assets, ips[0]) + WeightOver(w, assets, ips[1..])
  }

  function One(): Asset -> nat {
    (a: Asset) => 1
  }

  function FindingCount(findings: map<AssetId, nat>): Asset -> nat {
    (a: Asset) => FindingsOf(findings, a.id)
  }

  lemma {:induction false} WeightOnSnoc(w: Asset -> nat, assets: seq<Asset>, a: Asset, ip: string)
    ensures WeightOn(w, assets + [a], ip) == WeightOn(w, assets, ip) + if OnAddress(a, ip) then w(a) else 0
  {
    if assets == [] {
      assert ([] + [a])[1..] == [];
    } else {
      assert (assets + [a])[1..] == assets[1..] + [a];
      WeightOnSnoc(w, assets[1..], a, ip);
    }
  }

  lemma {:induction false} ChildrenWeigh(findings: map<AssetId, nat>, assets: seq<Asset>, ip: string)
    ensures |Children(assets, ip)| == WeightOn(One(), assets, ip)
    ensures SumFindings(findings, Children(assets, ip)) == WeightOn(FindingCount(findings), assets, ip)
  {
    if assets != [] {
      var n := |assets| - 1;
      var front, a := assets[..n], assets[n];
      assert assets == front + [a];
      ChildrenWeigh(findings, front, ip);
      WeightOnSnoc(One(), front, a, ip);
      WeightOnSnoc(FindingCount(findings), front, a, ip);
      if OnAddress(a, ip) {
        assert (Children(front, ip) + [a])[..|Children(front, ip)|] == Children(front, ip);
      }
    }
  }

  lemma {:induction false} AddressTakesItsAsset(w: Asset -> nat, a: Asset, rest: seq<Asset>, ips: seq<string>)
    requires Distinct(ips)
    ensures WeightOver(w, [a] + rest, ips)
            == WeightOver(w, rest, ips) + if HasIp(a) && a.ip.value in ips then w(a) else 0
  {
    if ips != [] {
      assert ([a] + rest)[1..] == rest;
      assert forall ip <- ips[1..] :: ip != ips[0];
      AddressTakesItsAsset(w, a, rest, ips[1..]);
    }
  }

  lemma {:induction false} NothingWeighsNothing(w: Asset -> nat, ips: seq<string>)
    ensures WeightOver(w, [], ips) == 0
  {
    if ips != [] {
      NothingWeighsNothing(w, ips[1..]);
    }
  }

  /** Addresses share out the assets: each asset with an address counts at exactly one of them. */
  lemma {:induction false} AddressesShareOut(w: Asset -> nat, assets: seq<Asset>, ips: seq<string>)
    requires Distinct(ips) && forall a <- assets :: HasIp(a) ==> a.ip.value in ips
    ensures WeightOver(w, assets, ips) == WeightOfAddressed(w, assets)
  {
    if assets == [] {
      NothingWeighsNothing(w, ips);
    } else {
      assert assets == [assets[0]] + assets[1..];
      AddressTakesItsAsset(w, assets[0], assets[1..], ips);
      AddressesShareOut(w, assets[1..], ips);
    }
  }

  /** A node of each kind lies in the part of that kind. */
  lemma NodeIsInItsPart(c: Context, assets: seq<Asset>, n: Node)
    requires Tables(c, assets) && n in Nodes(c, assets)
    ensures n.id.DomainNode? ==> n in DomainParts(c, assets)
    ensures n.id.AssetNode? ==> n in AssetParts(c, assets)
    ensures n.id.PortNode? ==> n in PortSection(c, assets)
  {
    var ips := IpsAmong(assets);
    IpsNonEmpty(assets);
    PartsDistinct(c, assets);
    IpsAmongDistinct(assets);
    IpPartsDistinct(c, assets, ips);
    PortPartsAreReports(c, AllOpen(assets), PortIds(assets));
    var d, a, p, q := DomainParts(c, assets), AssetParts(c, assets), IpParts(c, assets, ips), PortSection(c, assets);
    KindsOf(a, p);
    KindsOf(a + p, q);
    KindsOf(d, a + p + q);
    assert n in d ==> Tag(n.id) == 0;
    assert n in a ==> Tag(n.id) == 1;
    assert n in p ==> Tag(n.id) == 2;
  }

  /** The columns of an asset: its name and risk, its own findings, and one for each open entry of its port list. */
  lemma AssetColumns(c: Context, assets: seq<Asset>, n: Node, a: Asset)
    requires Tables(c, assets) && n in Nodes(c, assets) && a in assets && n.id == AssetNode(a.id)
    ensures n.shown == a.hostname && n.risk == a.risk && n.openPorts == |OpenPositions(a.ports)|
    ensures n.findings == (if a.id in c.findings then c.findings[a.id] else 0) && n.sharedBy == 0 && n.service == None
  {
    NodeIsInItsPart(c, assets, n);
    var i :| 0 <= i < |assets| && AssetParts(c, assets)[i] == n;
    var j :| 0 <= j < |assets| && assets[j] == a;
    assert i == j;
    OpenAmongCounts(HostOf(a), a.ports);
  }

  /** The columns of an address: how many assets share it, and the findings of all of them. */
  lemma AddressColumns(c: Context, assets: seq<Asset>, n: Node)
    requires n in Nodes(c, assets) && n.id.IpNode?
    ensures n.shown == n.id.ip && n.sharedBy == WeightOn(One(), assets, n.id.ip) && n.sharedBy > 0
    ensures n.findings == WeightOn(FindingCount(c.findings), assets, n.id.ip) && n.openPorts == 0 && n.service == None
  {
    IpNodeIsPart(c, assets, n);
    ChildrenWeigh(c.findings, assets, n.id.ip);
  }

  /** The columns of a port: its number in decimal and the exposure of that number. */
  lemma PortColumns(c: Context, assets: seq<Asset>, n: Node)
    requires Tables(c, assets) && n in Nodes(c, assets) && n.id.PortNode?
    ensures n.shown == Decimal(n.id.port) && n.risk == c.exposure(n.id.port)
    ensures n.findings == 0 && n.openPorts == 0 && n.sharedBy == 0 && n.service == ServiceOf(AllOpen(assets), n.id)
  {
    NodeIsInItsPart(c, assets, n);
    var k :| 0 <= k < |PortIds(assets)| && PortParts(c, AllOpen(assets), PortIds(assets))[k] == n;
    assert PortIds(assets)[k] in PortIds(assets);
  }

  /** A root shows its name and counts nothing itself. */
  lemma DomainColumns(c: Context, assets: seq<Asset>, n: Node)
    requires Tables(c, assets) && n in Nodes(c, assets) && n.id.DomainNode?
    ensures n.shown == n.id.domain && n.findings == 0 && n.openPorts == 0 && n.sharedBy == 0 && n.service == None
  {
    NodeIsInItsPart(c, assets, n);
  }

  /** What the address nodes say together. */
  function Total(nodes: seq<Node>, column: Node -> nat): nat {
    if nodes == [] then 0 else column(nodes[0]) + Total(nodes[1..], column)
  }

  lemma {:induction false} TotalOfAddresses(c: Context, assets: seq<Asset>, ips: seq<string>)
    requires forall ip <- ips :: Children(assets, ip) != []
    ensures Total(IpParts(c, assets, ips), (n: Node) => n.sharedBy) == WeightOver(One(), assets, ips)
    ensures Total(IpParts(c, assets, ips), (n: Node) => n.findings) == WeightOver(FindingCount(c.findings), assets, ips)
  {
    if ips != [] {
      assert ips[0] in ips && forall ip <- ips[1..] :: ip in ips;
      TotalOfAddresses(c, assets, ips[1..]);
      ChildrenWeigh(c.findings, assets, ips[0]);
      var parts := IpParts(c, assets, ips);
      assert parts[1..] == IpParts(c, assets, ips[1..]);
    }
  }

  /** No asset and no finding is counted at two addresses or at none: together the addresses count those that have one. */
  lemma AddressesCountOnce(c: Context, assets: seq<Asset>)
    ensures forall ip <- IpsAmong(assets) :: Children(assets, ip) != []
    ensures var parts := IpParts(c, assets, IpsAmong(assets));
            && Total(parts, (n: Node) => n.sharedBy) == WeightOfAddressed(One(), assets)
            && Total(parts, (n: Node) => n.findings) == WeightOfAddressed(FindingCount(c.findings), assets)
  {
    var ips := IpsAmong(assets);
    IpsNonEmpty(assets);
    IpsAmongDistinct(assets);
    forall a <- assets | HasIp(a) ensures a.ip.value in ips {
      IpsHaveChildren(assets, a.ip.value);
    }
    TotalOfAddresses(c, assets, ips);
    AddressesShareOut(One(), assets, ips);
    AddressesShareOut(FindingCount(c.findings), assets, ips);
  }

  /** There is a node for exactly the addresses some asset has; an empty address is none. */
  lemma AddressNodeIff(c: Context, assets: seq<Asset>, ip: string)
    ensures HasNode(Nodes(c, assets), IpNode(ip)) <==> ip != "" && exists a <- assets :: a.ip == Some(ip)
  {
    NodesAreExact(c, assets, IpNode(ip));
  }

  predicate ReportsOn(a: Asset, ip: string, port: nat) {
    a.ip == Some(ip) && IsOpen(a.ports, port)
  }

  /** There is one port node per address and open port of the assets on it, whichever of them reports it. */
  lemma AddressPortNodeIff(c: Context, assets: seq<Asset>, ip: string, port: nat)
    ensures HasNode(Nodes(c, assets), PortNode(OnIp(ip), port)) <==>
              c.includePorts && ip != "" && exists a <- assets :: ReportsOn(a, ip, port)
  {
    NodesAreExact(c, assets, PortNode(OnIp(ip), port));
    forall a <- assets ensures Reports(a, OnIp(ip), port) <==> ip != "" && ReportsOn(a, ip, port) {
    }
  }
}
