/** The blast-radius graph: domains, assets, shared addresses and open ports (backend/routes/assets.py). */
module Graph {
  import opened Results
  import opened Scope
  import opened Strings

  type AssetId = string

  datatype PortEntry = PortEntry(state: string, port: Option<nat>, service: Option<string>)

  datatype Asset = Asset(id: AssetId, hostname: string, ip: Option<string>, risk: real, ports: seq<PortEntry>)

  /** What a port stands on: an address, or an asset that has none. */
  datatype Host = OnIp(ip: string) | OnAsset(asset: AssetId)

  datatype NodeId = DomainNode(domain: string) | AssetNode(asset: AssetId) | IpNode(ip: string) | PortNode(host: Host, port: nat)

  datatype Node = Node(
    id: NodeId, shown: string, risk: real, findings: nat, openPorts: nat, sharedBy: nat, service: Option<string>)

  datatype Link = Link(source: NodeId, target: NodeId)

  /** An open port as one asset reports it. */
  datatype Open = Open(host: Host, port: nat, service: Option<string>)

  /** What the handler reads besides the assets. */
  datatype Context = Context(domains: seq<string>, findings: map<AssetId, nat>, includePorts: bool, exposure: nat -> real)

  function HostText(h: Host): string {
    match h
    case OnIp(ip) => ip
    case OnAsset(id) => id
  }

  /** The identifier sent to the browser. */
  function Render(id: NodeId): string {
    match id
    case DomainNode(domain) => "domain:" + domain
    case AssetNode(asset) => "asset:" + asset
    case IpNode(ip) => "ip:" + ip
    case PortNode(host, port) => "port:" + HostText(host) + ":" + Decimal(port)
  }

  predicate HasIp(a: Asset) {
    a.ip.Some? && a.ip.value != ""
  }

  function HostOf(a: Asset): Host {
    if HasIp(a) then OnIp(a.ip.value) else OnAsset(a.id)
  }

  function Anchor(h: Host): NodeId {
    match h
    case OnIp(ip) => IpNode(ip)
    case OnAsset(id) => AssetNode(id)
  }

  function OpenAmong(host: Host, entries: seq<PortEntry>): seq<Open> {
    if entries == [] then [] else
    var front, e := OpenAmong(host, entries[..|entries| - 1]), entries[|entries| - 1];
    if e.state == "open" && e.port.Some? then front + [Open(host, e.port.value, e.service)] else front
  }

  /** Every open port of every asset, in the order met. */
  function AllOpen(assets: seq<Asset>): seq<Open> {
    if assets == [] then [] else
    var a := assets[|assets| - 1];
    AllOpen(assets[..|assets| - 1]) + OpenAmong(HostOf(a), a.ports)
  }

  function Added<T(==)>(s: seq<T>, x: T): seq<T> {
    if x in s then s else s + [x]
  }

  /** Appending in order, each element only the first time. */
  function AddAll<T(==)>(s: seq<T>, more: seq<T>): seq<T> {
    if more == [] then s else Added(AddAll(s, more[..|more| - 1]), more[|more| - 1])
  }

  function IpsAmong(assets: seq<Asset>): seq<string> {
    if assets == [] then [] else
    var front, a := IpsAmong(assets[..|assets| - 1]), assets[|assets| - 1];
    if HasIp(a) then Added(front, a.ip.value) else front
  }

  /** The assets on one address, in order. */
  function Children(assets: seq<Asset>, ip: string): seq<Asset> {
    if assets == [] then [] else
    var front, a := Children(assets[..|assets| - 1], ip), assets[|assets| - 1];
    if HasIp(a) && a.ip.value == ip then front + [a] else front
  }

  function Max(a: real, b: real): real {
    if a < b then b else a
  }

  function MaxRisk(assets: seq<Asset>): real
    requires assets != []
  {
    if |assets| == 1 then assets[0].risk else Max(MaxRisk(assets[..|assets| - 1]), assets[|assets| - 1].risk)
  }

  function FindingsOf(findings: map<AssetId, nat>, id: AssetId): nat {
    if id in findings then findings[id] else 0
  }

  function SumFindings(findings: map<AssetId, nat>, assets: seq<Asset>): nat {
    if assets == [] then 0
    else SumFindings(findings, assets[..|assets| - 1]) + FindingsOf(findings, assets[|assets| - 1].id)
  }

  /** `parent_domain`: the longest covering domain; of equally long ones the first. */
  function ParentOf(domains: seq<string>, hostname: string): Option<string> {
    if domains == [] then None else
    var best, d := ParentOf(domains[..|domains| - 1], hostname), DomainKey(domains[|domains| - 1]);
    if Under(DomainKey(hostname), d) && (best.None? || |d| > |best.value|) then Some(d) else best
  }

  /** The choice of parent for each host name. */
  function Parents(domains: seq<string>): string -> Option<string> {
    hostname => ParentOf(domains, hostname)
  }

  function ParentLinkOf(parent: Option<string>, id: AssetId): seq<Link> {
    if parent.Some? then [Link(DomainNode(parent.value), AssetNode(id))] else []
  }

  function ParentLinks(parents: string -> Option<string>, assets: seq<Asset>): seq<Link> {
    if assets == [] then [] else
    var a := assets[|assets| - 1];
    ParentLinks(parents, assets[..|assets| - 1]) + ParentLinkOf(parents(a.hostname), a.id)
  }

  function LinksTo(ip: string, children: seq<Asset>): seq<Link> {
    seq(|children|, i requires 0 <= i < |children| => Link(AssetNode(children[i].id), IpNode(ip)))
  }

  function IpLinks(assets: seq<Asset>, ips: seq<string>): seq<Link> {
    if ips == [] then [] else
    var ip := ips[|ips| - 1];
    IpLinks(assets, ips[..|ips| - 1]) + LinksTo(ip, Children(assets, ip))
  }

  function Ids(open: seq<Open>): seq<NodeId> {
    seq(|open|, i requires 0 <= i < |open| => PortNode(open[i].host, open[i].port))
  }

  function PortLinks(ids: seq<NodeId>): seq<Link>
    requires forall id <- ids :: id.PortNode?
  {
    seq(|ids|, i requires 0 <= i < |ids| => Link(Anchor(ids[i].host), ids[i]))
  }

  predicate Named(service: Option<string>) {
    service.Some? && service.value != ""
  }

  /** The service shown for a port: the first report's, until a report names one. */
  function ServiceOf(open: seq<Open>, id: NodeId): Option<string> {
    if open == [] then None else
    var n := |open| - 1;
    var before, e := ServiceOf(open[..n], id), open[n];
    if PortNode(e.host, e.port) != id then before
    else if id !in Ids(open[..n]) then e.service
    else if !Named(before) && Named(e.service) then e.service
    else before
  }

  function AssetPart(c: Context, a: Asset): Node {
    Node(AssetNode(a.id), a.hostname, a.risk, FindingsOf(c.findings, a.id), |OpenAmong(HostOf(a), a.ports)|, 0, None)
  }

  function IpPart(c: Context, assets: seq<Asset>, ip: string): Node
    requires Children(assets, ip) != []
  {
    var children := Children(assets, ip);
    Node(IpNode(ip), ip, MaxRisk(children), SumFindings(c.findings, children), 0, |children|, None)
  }

  function PortPart(c: Context, open: seq<Open>, id: NodeId): Node
    requires id.PortNode?
  {
    Node(id, Decimal(id.port), c.exposure(id.port), 0, 0, 0, ServiceOf(open, id))
  }

  /** The key under which an asset's risk is kept for its root. */
  function RiskKey(parent: Option<string>): string {
    "domain:" + if parent.Some? then parent.value else "None"
  }

  /** The risk rolled up under a key: never below zero. */
  function RiskUnder(parents: string -> Option<string>, assets: seq<Asset>, key: string): real {
    if assets == [] then 0.0 else
    var before, a := RiskUnder(parents, assets[..|assets| - 1], key), assets[|assets| - 1];
    if RiskKey(parents(a.hostname)) == key then Max(before, a.risk) else before
  }

  function DomainPart(c: Context, assets: seq<Asset>, d: string): Node {
    Node(DomainNode(d), d, RiskUnder(Parents(c.domains), assets, "domain:" + d), 0, 0, 0, None)
  }

  lemma {:induction false} IpsHaveChildren(assets: seq<Asset>, ip: string)
    ensures ip in IpsAmong(assets) <==> Children(assets, ip) != []
    ensures ip in IpsAmong(assets) <==> exists a <- assets :: HasIp(a) && a.ip.value == ip
  {
    if assets != [] {
      var n := |assets| - 1;
      IpsHaveChildren(assets[..n], ip);
      assert forall a :: a in assets <==> a in assets[..n] || a == assets[n];
    }
  }

  lemma {:induction false} AddAllShape<T>(s: seq<T>, more: seq<T>)
    requires Distinct(s)
    ensures Distinct(AddAll(s, more)) && forall x :: x in AddAll(s, more) <==> x in s || x in more
  {
    if more != [] {
      var n := |more| - 1;
      AddAllShape(s, more[..n]);
      assert forall x :: x in more <==> x in more[..n] || x == more[n];
    }
  }

  lemma {:induction false} AddAllAppend<T>(s: seq<T>, a: seq<T>, b: seq<T>)
    ensures AddAll(AddAll(s, a), b) == AddAll(s, a + b)
  {
    if b == [] {
      assert a + b == a;
    } else {
      assert (a + b)[..|a + b| - 1] == a + b[..|b| - 1];
      AddAllAppend(s, a, b[..|b| - 1]);
    }
  }

  function PortIds(assets: seq<Asset>): (ids: seq<NodeId>)
    ensures forall id <- ids :: id.PortNode?
  {
    AddAllShape<NodeId>([], Ids(AllOpen(assets)));
    AddAll([], Ids(AllOpen(assets)))
  }

  function DomainParts(c: Context, assets: seq<Asset>): seq<Node> {
    seq(|c.domains|, i requires 0 <= i < |c.domains| => DomainPart(c, assets, c.domains[i]))
  }

  function AssetParts(c: Context, assets: seq<Asset>): seq<Node> {
    seq(|assets|, i requires 0 <= i < |assets| => AssetPart(c, assets[i]))
  }

  function IpParts(c: Context, assets: seq<Asset>, ips: seq<string>): seq<Node>
    requires forall ip <- ips :: Children(assets, ip) != []
  {
    seq(|ips|, i requires 0 <= i < |ips| => IpPart(c, assets, ips[i]))
  }

  function PortParts(c: Context, open: seq<Open>, ids: seq<NodeId>): seq<Node>
    requires forall id <- ids :: id.PortNode?
  {
    seq(|ids|, i requires 0 <= i < |ids| => PortPart(c, open, ids[i]))
  }

  function PortSection(c: Context, assets: seq<Asset>): seq<Node> {
    if c.includePorts then PortParts(c, AllOpen(assets), PortIds(assets)) else []
  }

  lemma IpsNonEmpty(assets: seq<Asset>)
    ensures forall ip <- IpsAmong(assets) :: Children(assets, ip) != []
  {
    forall ip <- IpsAmong(assets) ensures Children(assets, ip) != [] {
      IpsHaveChildren(assets, ip);
    }
  }

  /** The nodes after the roots. */
  function Rest(c: Context, assets: seq<Asset>): seq<Node> {
    var ips := IpsAmong(assets);
    IpsNonEmpty(assets);
    AssetParts(c, assets) + IpParts(c, assets, ips) + PortSection(c, assets)
  }

  /** The nodes of the finished graph. */
  function Nodes(c: Context, assets: seq<Asset>): seq<Node> {
    DomainParts(c, assets) + Rest(c, assets)
  }

  /** The links the handler tries to add, in order. */
  function Attempts(c: Context, assets: seq<Asset>): seq<Link> {
    ParentLinks(Parents(c.domains), assets) + IpLinks(assets, IpsAmong(assets))
    + if c.includePorts then PortLinks(PortIds(assets)) else []
  }

  function Links(c: Context, assets: seq<Asset>): seq<Link> {
    AddAll([], Attempts(c, assets))
  }

  function IdsOf(nodes: seq<Node>): seq<NodeId> {
    seq(|nodes|, i requires 0 <= i < |nodes| => nodes[i].id)
  }

  /** Primary keys are distinct, and the authorised domains are as `all_domains` lists them. */
  predicate Tables(c: Context, assets: seq<Asset>) {
    && (forall i, j :: 0 <= i < j < |assets| ==> assets[i].id != assets[j].id)
    && Distinct(c.domains) && (forall d <- c.domains :: DomainKey(d) == d)
  }

  /** The address stands in the table. */
  predicate IpKnown(assets: seq<Asset>, ip: string) {
    exists a <- assets :: HasIp(a) && a.ip.value == ip
  }

  predicate IsOpen(entries: seq<PortEntry>, port: nat) {
    exists e <- entries :: e.state == "open" && e.port == Some(port)
  }

  predicate Reports(a: Asset, host: Host, port: nat) {
    HostOf(a) == host && IsOpen(a.ports, port)
  }

  predicate PortKnown(assets: seq<Asset>, host: Host, port: nat) {
    exists a <- assets :: Reports(a, host, port)
  }

  predicate AssetKnown(assets: seq<Asset>, id: AssetId) {
    exists a <- assets :: a.id == id
  }

  /** Which nodes belong to the graph, said from the inventory. */
  predicate Belongs(c: Context, assets: seq<Asset>, id: NodeId) {
    match id
    case DomainNode(d) => d in c.domains
    case AssetNode(x) => AssetKnown(assets, x)
    case IpNode(ip) => IpKnown(assets, ip)
    case PortNode(host, port) => c.includePorts && PortKnown(assets, host, port)
  }

  lemma IsOpenAppend(front: seq<PortEntry>, e: PortEntry, port: nat)
    ensures IsOpen(front + [e], port) <==> IsOpen(front, port) || (e.state == "open" && e.port == Some(port))
  {
    var all := front + [e];
    assert forall x :: x in all <==> x in front || x == e;
  }

  lemma PortKnownAppend(front: seq<Asset>, a: Asset, host: Host, port: nat)
    ensures PortKnown(front + [a], host, port) <==> PortKnown(front, host, port) || Reports(a, host, port)
  {
    var all := front + [a];
    assert forall x :: x in all <==> x in front || x == a;
  }

  lemma IdsAppend(a: seq<Open>, b: seq<Open>)
    ensures Ids(a + b) == Ids(a) + Ids(b)
  {
  }

  lemma {:induction false} OpenAmongShape(host: Host, entries: seq<PortEntry>, h: Host, port: nat)
    ensures PortNode(h, port) in Ids(OpenAmong(host, entries)) <==> h == host && IsOpen(entries, port)
  {
    if entries != [] {
      var n := |entries| - 1;
      var front, e := OpenAmong(host, entries[..n]), entries[n];
      OpenAmongShape(host, entries[..n], h, port);
      IsOpenAppend(entries[..n], e, port);
      assert entries == entries[..n] + [e];
      if e.state == "open" && e.port.Some? {
        IdsAppend(front, [Open(host, e.port.value, e.service)]);
        assert Ids([Open(host, e.port.value, e.service)]) == [PortNode(host, e.port.value)];
      }
    }
  }

  lemma {:induction false} AllOpenShape(assets: seq<Asset>, host: Host, port: nat)
    ensures PortNode(host, port) in Ids(AllOpen(assets)) <==> PortKnown(assets, host, port)
  {
    if assets != [] {
      var n := |assets| - 1;
      var a := assets[n];
      AllOpenShape(assets[..n], host, port);
      OpenAmongShape(HostOf(a), a.ports, host, port);
      IdsAppend(AllOpen(assets[..n]), OpenAmong(HostOf(a), a.ports));
      PortKnownAppend(assets[..n], a, host, port);
      assert assets == assets[..n] + [a];
    }
  }

  lemma {:induction false} IpsAmongDistinct(assets: seq<Asset>)
    ensures Distinct(IpsAmong(assets))
  {
    if assets != [] {
      IpsAmongDistinct(assets[..|assets| - 1]);
    }
  }

  lemma PortIdsShape(assets: seq<Asset>)
    ensures Distinct(PortIds(assets))
    ensures forall host, port :: PortNode(host, port) in PortIds(assets) <==> PortKnown(assets, host, port)
  {
    AddAllShape<NodeId>([], Ids(AllOpen(assets)));
    forall host, port ensures PortNode(host, port) in PortIds(assets) <==> PortKnown(assets, host, port) {
      AllOpenShape(assets, host, port);
    }
  }

  /** Two runs of nodes with no identifier in common. */
  lemma DistinctConcat(a: seq<Node>, b: seq<Node>)
    requires Distinct(IdsOf(a)) && Distinct(IdsOf(b)) && forall x <- a, y <- b :: x.id != y.id
    ensures Distinct(IdsOf(a + b))
  {
    var all := a + b;
    forall i, j | 0 <= i < j < |all| ensures IdsOf(all)[i] != IdsOf(all)[j] {
      if j < |a| {
        assert IdsOf(a)[i] != IdsOf(a)[j];
      } else if i >= |a| {
        assert IdsOf(b)[i - |a|] != IdsOf(b)[j - |a|];
      } else {
        assert a[i] in a && b[j - |a|] in b;
      }
    }
  }

  predicate SameKind(nodes: seq<Node>, tag: nat) {
    forall n <- nodes :: Tag(n.id) == tag
  }

  function Tag(id: NodeId): nat {
    match id
    case DomainNode(_) => 0
    case AssetNode(_) => 1
    case IpNode(_) => 2
    case PortNode(_, _) => 3
  }

  lemma PartsDistinct(c: Context, assets: seq<Asset>)
    requires Tables(c, assets)
    ensures Distinct(IdsOf(DomainParts(c, assets))) && SameKind(DomainParts(c, assets), 0)
    ensures Distinct(IdsOf(AssetParts(c, assets))) && SameKind(AssetParts(c, assets), 1)
  {
  }

  lemma IpPartsDistinct(c: Context, assets: seq<Asset>, ips: seq<string>)
    requires Distinct(ips) && forall ip <- ips :: Children(assets, ip) != []
    ensures Distinct(IdsOf(IpParts(c, assets, ips))) && SameKind(IpParts(c, assets, ips), 2)
  {
  }

  lemma PortPartsDistinct(c: Context, open: seq<Open>, ids: seq<NodeId>)
    requires Distinct(ids) && forall id <- ids :: id.PortNode?
    ensures Distinct(IdsOf(PortParts(c, open, ids))) && SameKind(PortParts(c, open, ids), 3)
  {
    forall k | 0 <= k < |ids| ensures Tag(PortParts(c, open, ids)[k].id) == 3 {
      assert ids[k] in ids;
    }
  }

  /** No identifier occurs twice. */
  lemma NodeIdsDistinct(c: Context, assets: seq<Asset>)
    requires Tables(c, assets)
    ensures Distinct(IdsOf(Nodes(c, assets)))
  {
    var ips := IpsAmong(assets);
    IpsNonEmpty(assets);
    PartsDistinct(c, assets);
    IpsAmongDistinct(assets);
    IpPartsDistinct(c, assets, ips);
    PortIdsShape(assets);
    PortPartsDistinct(c, AllOpen(assets), PortIds(assets));
    var d, a, p, q := DomainParts(c, assets), AssetParts(c, assets), IpParts(c, assets, ips), PortSection(c, assets);
    DistinctConcat(a, p);
    KindsOf(a, p);
    DistinctConcat(a + p, q);
    KindsOf(a + p, q);
    DistinctConcat(d, a + p + q);
  }

  lemma KindsOf(a: seq<Node>, b: seq<Node>)
    ensures forall n <- a + b :: n in a || n in b
  {
  }

  predicate HasNode(nodes: seq<Node>, id: NodeId) {
    exists n <- nodes :: n.id == id
  }

  lemma HasNodeConcat(a: seq<Node>, b: seq<Node>, id: NodeId)
    ensures HasNode(a + b, id) <==> HasNode(a, id) || HasNode(b, id)
  {
    assert forall n :: n in a + b <==> n in a || n in b;
  }

  lemma DomainAndAssetNodes(c: Context, assets: seq<Asset>, id: NodeId)
    ensures HasNode(DomainParts(c, assets), id) <==> id.DomainNode? && id.domain in c.domains
    ensures HasNode(AssetParts(c, assets), id) <==> id.AssetNode? && AssetKnown(assets, id.asset)
  {
    var d, a := DomainParts(c, assets), AssetParts(c, assets);
    if id.DomainNode? && id.domain in c.domains {
      var i :| 0 <= i < |c.domains| && c.domains[i] == id.domain;
      assert d[i] in d;
    }
    if id.AssetNode? && AssetKnown(assets, id.asset) {
      var x :| x in assets && x.id == id.asset;
      var i :| 0 <= i < |assets| && assets[i] == x;
      assert a[i] in a;
    }
  }

  lemma IpNodes(c: Context, assets: seq<Asset>, ips: seq<string>, id: NodeId)
    requires forall ip <- ips :: Children(assets, ip) != []
    ensures HasNode(IpParts(c, assets, ips), id) <==> id.IpNode? && id.ip in ips
  {
    var p := IpParts(c, assets, ips);
    if id.IpNode? && id.ip in ips {
      var i :| 0 <= i < |ips| && ips[i] == id.ip;
      assert p[i] in p;
    }
  }

  lemma PortNodes(c: Context, open: seq<Open>, ids: seq<NodeId>, id: NodeId)
    requires forall x <- ids :: x.PortNode?
    ensures HasNode(PortParts(c, open, ids), id) <==> id in ids
  {
    var p := PortParts(c, open, ids);
    if id in ids {
      var i :| 0 <= i < |ids| && ids[i] == id;
      assert p[i] in p;
    }
  }

  /** The graph has a node for each domain, asset, address in use and open port, one per address or asset, and no others. */
  lemma NodesAreExact(c: Context, assets: seq<Asset>, id: NodeId)
    ensures HasNode(Nodes(c, assets), id) <==> Belongs(c, assets, id)
  {
    var ips := IpsAmong(assets);
    IpsNonEmpty(assets);
    PortIdsShape(assets);
    var d, a, p, q := DomainParts(c, assets), AssetParts(c, assets), IpParts(c, assets, ips), PortSection(c, assets);
    HasNodeConcat(a, p, id);
    HasNodeConcat(a + p, q, id);
    HasNodeConcat(d, a + p + q, id);
    DomainAndAssetNodes(c, assets, id);
    IpNodes(c, assets, ips, id);
    PortNodes(c, AllOpen(assets), PortIds(assets), id);
    if id.IpNode? {
      IpsHaveChildren(assets, id.ip);
    }
  }

  predicate Covers(d: string, hostname: string) {
    Under(DomainKey(hostname), d)
  }

  /** The parent covers the host, is one of the domains, and no covering domain is longer; there is none only if none covers. */
  lemma {:induction false} ParentIsLongest(domains: seq<string>, hostname: string)
    requires forall d <- domains :: DomainKey(d) == d
    ensures var p := ParentOf(domains, hostname);
            && (p.Some? ==> p.value in domains && Covers(p.value, hostname))
            && forall d <- domains :: Covers(d, hostname) ==> p.Some? && |d| <= |p.value|
  {
    if domains != [] {
      ParentIsLongest(domains[..|domains| - 1], hostname);
    }
  }

  /** Any domain with those two properties is the parent: the choice leaves nothing open. */
  lemma ParentIsUnique(domains: seq<string>, hostname: string, p: string)
    requires (forall d <- domains :: DomainKey(d) == d) && p in domains && Covers(p, hostname)
    requires forall d <- domains :: Covers(d, hostname) ==> |d| <= |p|
    ensures ParentOf(domains, hostname) == Some(p)
  {
    ParentIsLongest(domains, hostname);
    CoveringNamesNest(DomainKey(hostname), p, ParentOf(domains, hostname).value);
  }

  predicate ParentLink(parents: string -> Option<string>, a: Asset, l: Link) {
    var p := parents(a.hostname);
    p.Some? && l == Link(DomainNode(p.value), AssetNode(a.id))
  }

  predicate IpLink(a: Asset, l: Link) {
    HasIp(a) && l == Link(AssetNode(a.id), IpNode(a.ip.value))
  }

  predicate PortLink(assets: seq<Asset>, l: Link) {
    l.target.PortNode? && PortKnown(assets, l.target.host, l.target.port) && l.source == Anchor(l.target.host)
  }

  predicate HasParentLink(parents: string -> Option<string>, assets: seq<Asset>, l: Link) {
    exists a <- assets :: ParentLink(parents, a, l)
  }

  lemma HasParentLinkAppend(parents: string -> Option<string>, front: seq<Asset>, a: Asset, l: Link)
    ensures HasParentLink(parents, front + [a], l) <==> HasParentLink(parents, front, l) || ParentLink(parents, a, l)
  {
    assert forall x :: x in front + [a] <==> x in front || x == a;
  }

  /** Which links belong to the graph. */
  predicate LinkBelongs(c: Context, assets: seq<Asset>, l: Link) {
    || HasParentLink(Parents(c.domains), assets, l)
    || HasIpLink(assets, l)
    || (c.includePorts && PortLink(assets, l))
  }

  lemma {:induction false} ParentLinksShape(parents: string -> Option<string>, assets: seq<Asset>, l: Link)
    ensures l in ParentLinks(parents, assets) <==> HasParentLink(parents, assets, l)
  {
    if assets != [] {
      var n := |assets| - 1;
      ParentLinksShape(parents, assets[..n], l);
      assert assets == assets[..n] + [assets[n]];
      HasParentLinkAppend(parents, assets[..n], assets[n], l);
    }
  }

  lemma {:induction false} ChildrenShape(assets: seq<Asset>, ip: string)
    ensures forall a :: a in Children(assets, ip) <==> a in assets && HasIp(a) && a.ip.value == ip
  {
    if assets != [] {
      var n := |assets| - 1;
      ChildrenShape(assets[..n], ip);
      assert forall a :: a in assets <==> a in assets[..n] || a == assets[n];
    }
  }

  predicate SourceAmong(children: seq<Asset>, source: NodeId) {
    exists a <- children :: source == AssetNode(a.id)
  }

  lemma LinksToShape(ip: string, children: seq<Asset>, l: Link)
    ensures l in LinksTo(ip, children) <==> l.target == IpNode(ip) && SourceAmong(children, l.source)
  {
    var links := LinksTo(ip, children);
    if l.target == IpNode(ip) && SourceAmong(children, l.source) {
      var a :| a in children && l.source == AssetNode(a.id);
      var i :| 0 <= i < |children| && children[i] == a;
      assert links[i] == l;
    }
  }

  lemma {:induction false} IpLinksShape(assets: seq<Asset>, ips: seq<string>, l: Link)
    ensures l in IpLinks(assets, ips) <==>
              l.target.IpNode? && l.target.ip in ips && SourceAmong(Children(assets, l.target.ip), l.source)
  {
    if ips != [] {
      var n := |ips| - 1;
      IpLinksShape(assets, ips[..n], l);
      LinksToShape(ips[n], Children(assets, ips[n]), l);
      assert forall x :: x in ips <==> x in ips[..n] || x == ips[n];
    }
  }

  predicate HasIpLink(assets: seq<Asset>, l: Link) {
    exists a <- assets :: IpLink(a, l)
  }

  lemma IpLinkIsChildLink(assets: seq<Asset>, l: Link)
    ensures HasIpLink(assets, l) <==>
              l.target.IpNode? && l.target.ip in IpsAmong(assets) && SourceAmong(Children(assets, l.target.ip), l.source)
  {
    if l.target.IpNode? {
      ChildrenShape(assets, l.target.ip);
      IpsHaveChildren(assets, l.target.ip);
    }
  }

  lemma PortLinksShape(ids: seq<NodeId>, l: Link)
    requires forall id <- ids :: id.PortNode?
    ensures l in PortLinks(ids) <==> l.target in ids && l.source == Anchor(l.target.host)
  {
    var links := PortLinks(ids);
    if l.target in ids && l.source == Anchor(l.target.host) {
      var i :| 0 <= i < |ids| && ids[i] == l.target;
      assert links[i] == l;
    }
  }

  /** Every link that belongs is there once, and no other. */
  lemma LinksAreExact(c: Context, assets: seq<Asset>, l: Link)
    ensures Distinct(Links(c, assets))
    ensures l in Links(c, assets) <==> LinkBelongs(c, assets, l)
  {
    AddAllShape<Link>([], Attempts(c, assets));
    ParentLinksShape(Parents(c.domains), assets, l);
    IpLinksShape(assets, IpsAmong(assets), l);
    PortIdsShape(assets);
    PortLinksShape(PortIds(assets), l);
    IpLinkIsChildLink(assets, l);
  }

  lemma ParentLinkEnds(c: Context, assets: seq<Asset>, a: Asset, l: Link)
    requires (forall d <- c.domains :: DomainKey(d) == d) && a in assets && ParentLink(Parents(c.domains), a, l)
    ensures Belongs(c, assets, l.source) && Belongs(c, assets, l.target)
  {
    ParentIsLongest(c.domains, a.hostname);
  }

  lemma IpLinkEnds(c: Context, assets: seq<Asset>, a: Asset, l: Link)
    requires a in assets && IpLink(a, l)
    ensures Belongs(c, assets, l.source) && Belongs(c, assets, l.target)
  {
  }

  lemma PortLinkEnds(c: Context, assets: seq<Asset>, l: Link)
    requires c.includePorts && PortLink(assets, l)
    ensures Belongs(c, assets, l.source) && Belongs(c, assets, l.target)
  {
    var a :| a in assets && Reports(a, l.target.host, l.target.port);
    assert l.source == Anchor(HostOf(a));
  }

  lemma LinkEndsBelong(c: Context, assets: seq<Asset>, l: Link)
    requires (forall d <- c.domains :: DomainKey(d) == d) && LinkBelongs(c, assets, l)
    ensures Belongs(c, assets, l.source) && Belongs(c, assets, l.target)
  {
    if a :| a in assets && ParentLink(Parents(c.domains), a, l) {
      ParentLinkEnds(c, assets, a, l);
    } else if a :| a in assets && IpLink(a, l) {
      IpLinkEnds(c, assets, a, l);
    } else {
      PortLinkEnds(c, assets, l);
    }
  }

  /** Every link joins two nodes of the graph. */
  lemma LinksJoinNodes(c: Context, assets: seq<Asset>, l: Link)
    requires Tables(c, assets) && l in Links(c, assets)
    ensures HasNode(Nodes(c, assets), l.source) && HasNode(Nodes(c, assets), l.target)
  {
    LinksAreExact(c, assets, l);
    LinkEndsBelong(c, assets, l);
    NodesAreExact(c, assets, l.source);
    NodesAreExact(c, assets, l.target);
  }

  /** An asset hangs from its parent domain and from nothing else. */
  lemma AssetHangsFromParent(c: Context, assets: seq<Asset>, a: Asset, source: NodeId)
    requires Tables(c, assets) && a in assets
    ensures var p := Parents(c.domains)(a.hostname);
            Link(source, AssetNode(a.id)) in Links(c, assets) <==> p.Some? && source == DomainNode(p.value)
  {
    LinksAreExact(c, assets, Link(source, AssetNode(a.id)));
    var p := Parents(c.domains)(a.hostname);
    if p.Some? {
      assert ParentLink(Parents(c.domains), a, Link(DomainNode(p.value), AssetNode(a.id)));
    }
  }

  /** The maximum over the children: none exceeds it and one attains it. */
  lemma {:induction false} MaxRiskIsMax(assets: seq<Asset>)
    requires assets != []
    ensures (forall a <- assets :: a.risk <= MaxRisk(assets)) && exists a <- assets :: a.risk == MaxRisk(assets)
  {
    assert assets[|assets| - 1] in assets;
    if |assets| > 1 {
      var n := |assets| - 1;
      MaxRiskIsMax(assets[..n]);
      assert forall a :: a in assets <==> a in assets[..n] || a == assets[n];
    }
  }

  lemma IpNodeIsPart(c: Context, assets: seq<Asset>, n: Node)
    requires n in Nodes(c, assets) && n.id.IpNode?
    ensures Children(assets, n.id.ip) != [] && n == IpPart(c, assets, n.id.ip)
  {
    IpsNonEmpty(assets);
    var ips, ids := IpsAmong(assets), PortIds(assets);
    var q := if c.includePorts then PortParts(c, AllOpen(assets), ids) else [];
    PortPartsAreReports(c, AllOpen(assets), ids);
    assert n !in q;
    assert n !in DomainParts(c, assets) && n !in AssetParts(c, assets);
    assert n in IpParts(c, assets, ips);
    var k :| 0 <= k < |ips| && IpParts(c, assets, ips)[k] == n;
    assert ips[k] in ips;
  }

  lemma PortPartsAreReports(c: Context, open: seq<Open>, ids: seq<NodeId>)
    requires forall id <- ids :: id.PortNode?
    ensures forall n <- PortParts(c, open, ids) :: n.id.PortNode? && n.id in ids
  {
    forall k | 0 <= k < |ids| ensures PortParts(c, open, ids)[k].id in ids {
      assert ids[k] in ids;
    }
  }

  /** An address is exactly as dangerous as the worst asset on it. */
  lemma IpRiskIsMax(c: Context, assets: seq<Asset>, n: Node)
    requires n in Nodes(c, assets) && n.id.IpNode?
    ensures forall a <- assets :: HasIp(a) && a.ip.value == n.id.ip ==> a.risk <= n.risk
    ensures exists a <- assets :: HasIp(a) && a.ip.value == n.id.ip && a.risk == n.risk
  {
    IpsNonEmpty(assets);
    IpNodeIsPart(c, assets, n);
    var ip := n.id.ip;
    MaxRiskIsMax(Children(assets, ip));
    ChildrenShape(assets, ip);
  }

  /** A key-form domain has no capital, so it is never taken for the key of the orphans. */
  lemma KeyOfDomain(d: string, parent: Option<string>)
    requires DomainKey(d) == d
    ensures RiskKey(parent) == "domain:" + d <==> parent == Some(d)
  {
    var head, tail := "domain:", if parent.Some? then parent.value else "None";
    assert RiskKey(parent)[|head|..] == tail && (head + d)[|head|..] == d;
    KeyIsLower(d);
    assert "None"[0] == 'N';
  }

  lemma KeyIsLower(d: string)
    requires DomainKey(d) == d
    ensures 'N' !in d
  {
    StripShape(Lower(d), IsDot);
    forall i | 0 <= i < |d| ensures d[i] != 'N' {
      assert d[i] in Lower(d);
    }
  }

  lemma {:induction false} RiskUnderIsMax(parents: string -> Option<string>, assets: seq<Asset>, key: string)
    ensures var r := RiskUnder(parents, assets, key);
            && r >= 0.0 && (forall a <- assets :: RiskKey(parents(a.hostname)) == key ==> a.risk <= r)
            && (r == 0.0 || exists a <- assets :: RiskKey(parents(a.hostname)) == key && a.risk == r)
  {
    if assets != [] {
      var n := |assets| - 1;
      RiskUnderIsMax(parents, assets[..n], key);
      assert forall a :: a in assets <==> a in assets[..n] || a == assets[n];
    }
  }

  /** A domain is as dangerous as the worst asset that hangs from it, and never below zero. */
  lemma DomainRiskIsMax(c: Context, assets: seq<Asset>, n: Node)
    requires Tables(c, assets) && n in Nodes(c, assets) && n.id.DomainNode?
    ensures n.risk >= 0.0
    ensures forall a <- assets :: Parents(c.domains)(a.hostname) == Some(n.id.domain) ==> a.risk <= n.risk
    ensures n.risk == 0.0 || exists a <- assets :: Parents(c.domains)(a.hostname) == Some(n.id.domain) && a.risk == n.risk
  {
    var d := n.id.domain;
    NoDomainsInRest(c, assets);
    assert n in DomainParts(c, assets);
    assert n == DomainPart(c, assets, d) && d in c.domains;
    RiskUnderIsMax(Parents(c.domains), assets, "domain:" + d);
    forall a <- assets
      ensures RiskKey(Parents(c.domains)(a.hostname)) == "domain:" + d <==> Parents(c.domains)(a.hostname) == Some(d)
    {
      KeyOfDomain(d, Parents(c.domains)(a.hostname));
    }
  }

  predicate NamesPort(e: Open, id: NodeId) {
    PortNode(e.host, e.port) == id && Named(e.service)
  }

  predicate SomeNames(open: seq<Open>, id: NodeId) {
    exists e <- open :: NamesPort(e, id)
  }

  lemma SomeNamesAppend(front: seq<Open>, e: Open, id: NodeId)
    ensures SomeNames(front + [e], id) <==> SomeNames(front, id) || NamesPort(e, id)
  {
    assert forall x :: x in front + [e] <==> x in front || x == e;
  }

  lemma SomeNamesIsReported(open: seq<Open>, id: NodeId)
    requires SomeNames(open, id)
    ensures id in Ids(open)
  {
    var e :| e in open && NamesPort(e, id);
    var k :| 0 <= k < |open| && open[k] == e;
    assert Ids(open)[k] == id;
  }

  /** A port shows a service exactly when some report of it names one. */
  lemma {:induction false} ServiceIsNamedIff(open: seq<Open>, id: NodeId)
    ensures Named(ServiceOf(open, id)) <==> SomeNames(open, id)
  {
    if open != [] {
      var n := |open| - 1;
      ServiceIsNamedIff(open[..n], id);
      assert open == open[..n] + [open[n]];
      SomeNamesAppend(open[..n], open[n], id);
      if SomeNames(open[..n], id) {
        SomeNamesIsReported(open[..n], id);
      }
    }
  }

  /** And then the first such service. */
  lemma {:induction false} ServiceIsFirstNamed(open: seq<Open>, id: NodeId, k: nat)
    requires k < |open| && NamesPort(open[k], id) && !SomeNames(open[..k], id)
    ensures ServiceOf(open, id) == open[k].service
  {
    var n := |open| - 1;
    if k == n {
      ServiceIsNamedIff(open[..n], id);
    } else {
      assert open[..n][..k] == open[..k];
      ServiceIsFirstNamed(open[..n], id, k);
      assert open[..n][k] in open[..n];
      SomeNamesIsReported(open[..n], id);
    }
  }

  /** Text before the last colon and the number after it are both recovered. */
  lemma LastColonSplits(h1: string, d1: string, h2: string, d2: string)
    requires ':' !in d1 && ':' !in d2 && h1 + (":" + d1) == h2 + (":" + d2)
    ensures h1 == h2 && d1 == d2
  {
    var s, t := h1 + (":" + d1), h2 + (":" + d2);
    assert s[|h1|] == ':' && t[|h2|] == ':';
    assert s[..|h1|] == h1 && t[..|h2|] == h2;
    assert s[|h1| + 1..] == d1 && t[|h2| + 1..] == d2;
  }

  lemma SameHead(head: string, a: string, b: string)
    requires head + a == head + b
    ensures a == b
  {
    assert (head + a)[|head|..] == a && (head + b)[|head|..] == b;
  }

  /** Identifiers stay distinct as text, provided no address reads like an asset's id. */
  lemma RenderInjective(a: NodeId, b: NodeId)
    requires Render(a) == Render(b)
    requires a.PortNode? && b.PortNode? && HostText(a.host) == HostText(b.host) ==> a.host == b.host
    ensures a == b
  {
    assert Render(a)[0] == Render(b)[0];
    match a {
      case DomainNode(d) => SameHead("domain:", d, b.domain);
      case AssetNode(x) => SameHead("asset:", x, b.asset);
      case IpNode(ip) => SameHead("ip:", ip, b.ip);
      case PortNode(host, port) =>
        var ta, tb := HostText(host) + (":" + Decimal(port)), HostText(b.host) + (":" + Decimal(b.port));
        assert Render(a) == "port:" + ta && Render(b) == "port:" + tb;
        SameHead("port:", ta, tb);
        LastColonSplits(HostText(host), Decimal(port), HostText(b.host), Decimal(b.port));
        DecimalInjective(port, b.port);
    }
  }

  /** No address reads like the id of an asset. */
  predicate AddressesApart(assets: seq<Asset>) {
    forall a <- assets, b <- assets :: HasIp(a) ==> a.ip.value != b.id
  }

  lemma HostTextsApart(assets: seq<Asset>, a: Asset, b: Asset)
    requires AddressesApart(assets) && a in assets && b in assets && HostText(HostOf(a)) == HostText(HostOf(b))
    ensures HostOf(a) == HostOf(b)
  {
  }

  lemma TextsIdentify(c: Context, assets: seq<Asset>, x: NodeId, y: NodeId)
    requires AddressesApart(assets) && Belongs(c, assets, x) && Belongs(c, assets, y) && Render(x) == Render(y)
    ensures x == y
  {
    if x.PortNode? && y.PortNode? {
      var a :| a in assets && Reports(a, x.host, x.port);
      var b :| b in assets && Reports(b, y.host, y.port);
      if HostText(x.host) == HostText(y.host) {
        HostTextsApart(assets, a, b);
      }
    }
    RenderInjective(x, y);
  }

  function Rendered(nodes: seq<Node>): seq<string> {
    seq(|nodes|, i requires 0 <= i < |nodes| => Render(nodes[i].id))
  }

  /** The browser, which sees texts, never gets one identifier twice. */
  lemma RenderedIdsDistinct(c: Context, assets: seq<Asset>)
    requires Tables(c, assets) && AddressesApart(assets)
    ensures Distinct(Rendered(Nodes(c, assets)))
  {
    NodeIdsDistinct(c, assets);
    var nodes := Nodes(c, assets);
    forall i, j | 0 <= i < j < |nodes| ensures Rendered(nodes)[i] != Rendered(nodes)[j] {
      assert nodes[i] in nodes && nodes[j] in nodes;
      NodesAreExact(c, assets, nodes[i].id);
      NodesAreExact(c, assets, nodes[j].id);
      assert IdsOf(nodes)[i] != IdsOf(nodes)[j];
      if Render(nodes[i].id) == Render(nodes[j].id) {
        TextsIdentify(c, assets, nodes[i].id, nodes[j].id);
      }
    }
  }

  method ParentDomain(domains: seq<string>, hostname: string) returns (best: Option<string>)
    ensures best == ParentOf(domains, hostname)
  {
    var host := DomainKey(hostname);
    best := None;
    for i := 0 to |domains|
      invariant best == ParentOf(domains[..i], hostname)
    {
      assert domains[..i + 1][..i] == domains[..i];
      var d := DomainKey(domains[i]);
      if Under(host, d) && (best.None? || |d| > |best.value|) {
        best := Some(d);
      }
    }
    assert domains[..|domains|] == domains;
  }

  /** The groups hold, for each address met so far, its assets in order. */
  ghost predicate Grouped(assets: seq<Asset>, order: seq<string>, groups: map<string, seq<Asset>>) {
    && order == IpsAmong(assets)
    && (forall ip :: ip in groups <==> ip in order)
    && (forall ip <- groups :: groups[ip] == Children(assets, ip))
  }

  lemma ChildrenAppend(front: seq<Asset>, a: Asset, ip: string)
    ensures Children(front + [a], ip) == Children(front, ip) + if HasIp(a) && a.ip.value == ip then [a] else []
  {
    assert (front + [a])[..|front|] == front;
  }

  lemma IpsAppend(front: seq<Asset>, a: Asset)
    ensures IpsAmong(front + [a]) == if HasIp(a) then Added(IpsAmong(front), a.ip.value) else IpsAmong(front)
  {
    assert (front + [a])[..|front|] == front;
  }

  /** The group of an address not met yet is empty, as its list of assets is. */
  lemma GroupSoFar(front: seq<Asset>, order: seq<string>, groups: map<string, seq<Asset>>, ip: string)
    requires Grouped(front, order, groups)
    ensures (if ip in groups then groups[ip] else []) == Children(front, ip)
  {
    IpsHaveChildren(front, ip);
  }

  lemma GroupOneMore(front: seq<Asset>, a: Asset, order: seq<string>, groups: map<string, seq<Asset>>)
    requires Grouped(front, order, groups) && HasIp(a)
    ensures var ip := a.ip.value;
            Grouped(front + [a], Added(order, ip), groups[ip := (if ip in groups then groups[ip] else []) + [a]])
  {
    var ip := a.ip.value;
    var more := groups[ip := (if ip in groups then groups[ip] else []) + [a]];
    IpsAppend(front, a);
    GroupSoFar(front, order, groups, ip);
    forall x <- more ensures more[x] == Children(front + [a], x) {
      ChildrenAppend(front, a, x);
      assert x != ip ==> Children(front, x) + [] == Children(front, x);
    }
    assert forall x :: x in more <==> x in Added(order, ip);
  }

  lemma GroupOthers(front: seq<Asset>, a: Asset, order: seq<string>, groups: map<string, seq<Asset>>)
    requires Grouped(front, order, groups) && !HasIp(a)
    ensures Grouped(front + [a], order, groups)
  {
    IpsAppend(front, a);
    forall x <- groups ensures groups[x] == Children(front + [a], x) {
      ChildrenAppend(front, a, x);
    }
  }

  /** `ip_children`: addresses in the order first met. */
  method GroupByIp(assets: seq<Asset>) returns (order: seq<string>, groups: map<string, seq<Asset>>)
    ensures Grouped(assets, order, groups)
  {
    order, groups := [], map[];
    for i := 0 to |assets|
      invariant Grouped(assets[..i], order, groups)
    {
      var a := assets[i];
      assert assets[..i + 1] == assets[..i] + [a];
      if HasIp(a) {
        GroupOneMore(assets[..i], a, order, groups);
        var ip := a.ip.value;
        order := Added(order, ip);
        groups := groups[ip := (if ip in groups then groups[ip] else []) + [a]];
      } else {
        GroupOthers(assets[..i], a, order, groups);
      }
    }
    assert assets[..|assets|] == assets;
  }

  /** The ports met so far, in the order first met, each with its service. */
  ghost predicate Collected(open: seq<Open>, order: seq<NodeId>, services: map<NodeId, Option<string>>) {
    && order == AddAll([], Ids(open))
    && (forall id :: id in services <==> id in order)
    && (forall id <- services :: services[id] == ServiceOf(open, id))
  }

  lemma CollectOneMore(front: seq<Open>, e: Open, order: seq<NodeId>, services: map<NodeId, Option<string>>)
    requires Collected(front, order, services)
    ensures var id := PortNode(e.host, e.port);
            Collected(front + [e], Added(order, id),
                      services[id := if id !in services then e.service
                                     else if !Named(services[id]) && Named(e.service) then e.service
                                     else services[id]])
  {
    var id := PortNode(e.host, e.port);
    var all := front + [e];
    assert all[..|front|] == front;
    assert Ids(all)[..|front|] == Ids(front);
    AddAllShape<NodeId>([], Ids(front));
  }

  method CollectPorts(assets: seq<Asset>) returns (order: seq<NodeId>, services: map<NodeId, Option<string>>)
    ensures Collected(AllOpen(assets), order, services)
  {
    order, services := [], map[];
    for i := 0 to |assets|
      invariant Collected(AllOpen(assets[..i]), order, services)
    {
      var a := assets[i];
      ghost var before := AllOpen(assets[..i]);
      assert before + OpenAmong(HostOf(a), a.ports[..0]) == before;
      for j := 0 to |a.ports|
        invariant Collected(before + OpenAmong(HostOf(a), a.ports[..j]), order, services)
      {
        order, services := CollectEntry(before, a, j, order, services);
      }
      assert assets[..i + 1][..i] == assets[..i] && a.ports[..|a.ports|] == a.ports;
    }
    assert assets[..|assets|] == assets;
  }

  method CollectEntry(ghost before: seq<Open>, a: Asset, j: nat, order: seq<NodeId>, services: map<NodeId, Option<string>>)
    returns (order': seq<NodeId>, services': map<NodeId, Option<string>>)
    requires j < |a.ports| && Collected(before + OpenAmong(HostOf(a), a.ports[..j]), order, services)
    ensures Collected(before + OpenAmong(HostOf(a), a.ports[..j + 1]), order', services')
  {
    order', services' := order, services;
    var entry := a.ports[j];
    assert a.ports[..j + 1][..j] == a.ports[..j];
    if entry.state != "open" || entry.port.None? {
      return;
    }
    ghost var front := OpenAmong(HostOf(a), a.ports[..j]);
    ghost var e := Open(HostOf(a), entry.port.value, entry.service);
    assert before + (front + [e]) == before + front + [e];
    CollectOneMore(before + front, e, order, services);
    var id := PortNode(HostOf(a), entry.port.value);
    order' := Added(order, id);
    if id !in services {
      services' := services[id := entry.service];
    } else if !Named(services[id]) && Named(entry.service) {
      services' := services[id := entry.service];
    } else {
      assert services[id := services[id]] == services;
    }
  }

  method WorstRisk(assets: seq<Asset>) returns (worst: real)
    requires assets != []
    ensures worst == MaxRisk(assets)
  {
    worst := assets[0].risk;
    for i := 1 to |assets|
      invariant worst == MaxRisk(assets[..i])
    {
      assert assets[..i + 1][..i] == assets[..i];
      worst := Max(worst, assets[i].risk);
    }
    assert assets[..|assets|] == assets;
  }

  method CountFindings(findings: map<AssetId, nat>, assets: seq<Asset>) returns (sum: nat)
    ensures sum == SumFindings(findings, assets)
  {
    sum := 0;
    for i := 0 to |assets|
      invariant sum == SumFindings(findings, assets[..i])
    {
      assert assets[..i + 1][..i] == assets[..i];
      sum := sum + FindingsOf(findings, assets[i].id);
    }
    assert assets[..|assets|] == assets;
  }

  function RiskAt(risks: map<string, real>, key: string): real {
    if key in risks then risks[key] else 0.0
  }

  /** `child_risk`. */
  method RollUp(domains: seq<string>, assets: seq<Asset>) returns (risks: map<string, real>)
    ensures forall key :: RiskAt(risks, key) == RiskUnder(Parents(domains), assets, key)
  {
    risks := map[];
    for i := 0 to |assets|
      invariant forall key :: RiskAt(risks, key) == RiskUnder(Parents(domains), assets[..i], key)
    {
      assert assets[..i + 1][..i] == assets[..i];
      var parent := ParentDomain(domains, assets[i].hostname);
      assert parent == Parents(domains)(assets[i].hostname);
      var key := RiskKey(parent);
      risks := risks[key := Max(RiskAt(risks, key), assets[i].risk)];
    }
    assert assets[..|assets|] == assets;
  }

  function BareDomain(d: string): Node {
    Node(DomainNode(d), d, 0.0, 0, 0, 0, None)
  }

  function BareDomains(domains: seq<string>): seq<Node> {
    seq(|domains|, i requires 0 <= i < |domains| => BareDomain(domains[i]))
  }

  /** A root's risk is filled in last; other nodes are left. */
  function Filled(risks: map<string, real>, n: Node): Node {
    if n.id.DomainNode? then n.(risk := RiskAt(risks, Render(n.id))) else n
  }

  /** The lists the handler grows. */
  class GraphBuilder {
    var nodes: seq<Node>
    var links: seq<Link>
    var seenLinks: set<Link>

    constructor ()
      ensures nodes == [] && links == [] && Valid()
    {
      nodes, links, seenLinks := [], [], {};
    }

    ghost predicate Valid()
      reads this
    {
      forall l :: l in seenLinks <==> l in links
    }

    method AddLink(source: NodeId, target: NodeId)
      requires Valid()
      modifies this`links, this`seenLinks
      ensures Valid() && links == Added(old(links), Link(source, target))
    {
      var key := Link(source, target);
      if key !in seenLinks {
        seenLinks := seenLinks + {key};
        links := links + [key];
      }
    }

    method AddDomains(domains: seq<string>)
      modifies this`nodes
      ensures nodes == old(nodes) + BareDomains(domains)
    {
      for i := 0 to |domains|
        invariant nodes == old(nodes) + BareDomains(domains[..i])
      {
        assert BareDomains(domains[..i + 1]) == BareDomains(domains[..i]) + [BareDomain(domains[i])];
        nodes := nodes + [BareDomain(domains[i])];
      }
      assert domains[..|domains|] == domains;
    }

    method AddAsset(c: Context, a: Asset)
      requires Valid()
      modifies this
      ensures Valid() && nodes == old(nodes) + [AssetPart(c, a)]
      ensures links == AddAll(old(links), ParentLinkOf(Parents(c.domains)(a.hostname), a.id))
    {
      nodes := nodes + [AssetPart(c, a)];
      var parent := ParentDomain(c.domains, a.hostname);
      if parent.Some? {
        AddAllOne(links, [], Link(DomainNode(parent.value), AssetNode(a.id)));
        AddLink(DomainNode(parent.value), AssetNode(a.id));
      }
    }

    method AddAssets(c: Context, assets: seq<Asset>)
      requires Valid()
      modifies this
      ensures Valid()
      ensures nodes == old(nodes) + AssetParts(c, assets)
      ensures links == AddAll(old(links), ParentLinks(Parents(c.domains), assets))
    {
      for i := 0 to |assets|
        invariant Valid()
        invariant nodes == old(nodes) + AssetParts(c, assets[..i])
        invariant links == AddAll(old(links), ParentLinks(Parents(c.domains), assets[..i]))
      {
        AssetStep(c, assets, i, old(nodes), old(links));
        AddAsset(c, assets[i]);
      }
      assert assets[..|assets|] == assets;
    }

    method LinkChildren(ip: string, children: seq<Asset>)
      requires Valid()
      modifies this`links, this`seenLinks
      ensures Valid() && links == AddAll(old(links), LinksTo(ip, children))
    {
      for i := 0 to |children|
        invariant Valid() && links == AddAll(old(links), LinksTo(ip, children[..i]))
      {
        var l := Link(AssetNode(children[i].id), IpNode(ip));
        assert LinksTo(ip, children[..i + 1]) == LinksTo(ip, children[..i]) + [l];
        AddAllOne(old(links), LinksTo(ip, children[..i]), l);
        AddLink(AssetNode(children[i].id), IpNode(ip));
      }
      assert children[..|children|] == children;
    }

    method AddIp(c: Context, ip: string, children: seq<Asset>)
      requires Valid() && children != []
      modifies this
      ensures Valid()
      ensures nodes == old(nodes) + [Node(IpNode(ip), ip, MaxRisk(children), SumFindings(c.findings, children), 0, |children|, None)]
      ensures links == AddAll(old(links), LinksTo(ip, children))
    {
      var worst := WorstRisk(children);
      var findings := CountFindings(c.findings, children);
      nodes := nodes + [Node(IpNode(ip), ip, worst, findings, 0, |children|, None)];
      LinkChildren(ip, children);
    }

    method AddIps(c: Context, ghost assets: seq<Asset>, order: seq<string>, groups: map<string, seq<Asset>>)
      requires Valid() && Grouped(assets, order, groups)
      requires forall ip <- order :: Children(assets, ip) != []
      modifies this
      ensures Valid()
      ensures nodes == old(nodes) + IpParts(c, assets, order)
      ensures links == AddAll(old(links), IpLinks(assets, order))
    {
      for i := 0 to |order|
        invariant Valid()
        invariant nodes == old(nodes) + IpParts(c, assets, order[..i])
        invariant links == AddAll(old(links), IpLinks(assets, order[..i]))
      {
        IpStep(c, assets, order, i, old(nodes), old(links));
        AddIp(c, order[i], groups[order[i]]);
      }
      assert order[..|order|] == order;
    }

    method AddPorts(c: Context, ghost open: seq<Open>, order: seq<NodeId>, services: map<NodeId, Option<string>>)
      requires Valid() && Collected(open, order, services) && forall id <- order :: id.PortNode?
      modifies this
      ensures Valid()
      ensures nodes == old(nodes) + PortParts(c, open, order)
      ensures links == AddAll(old(links), PortLinks(order))
    {
      for i := 0 to |order|
        invariant Valid()
        invariant nodes == old(nodes) + PortParts(c, open, order[..i])
        invariant links == AddAll(old(links), PortLinks(order[..i]))
      {
        PortStep(c, open, order, i, old(nodes), old(links));
        var id := order[i];
        nodes := nodes + [Node(id, Decimal(id.port), c.exposure(id.port), 0, 0, 0, services[id])];
        AddLink(Anchor(id.host), id);
      }
      assert order[..|order|] == order;
    }

    /** The last pass: every domain node gets the risk rolled up under its identifier. */
    method FillDomains(risks: map<string, real>)
      modifies this`nodes
      ensures |nodes| == |old(nodes)| && forall k :: 0 <= k < |nodes| ==> nodes[k] == Filled(risks, old(nodes)[k])
    {
      for i := 0 to |nodes|
        invariant |nodes| == |old(nodes)|
        invariant forall k :: 0 <= k < |nodes| ==> nodes[k] == if k < i then Filled(risks, old(nodes)[k]) else old(nodes)[k]
      {
        if nodes[i].id.DomainNode? {
          nodes := nodes[i := nodes[i].(risk := RiskAt(risks, Render(nodes[i].id)))];
        }
      }
    }

    method AddPortSection(c: Context, assets: seq<Asset>)
      requires Valid()
      modifies this
      ensures Valid()
      ensures nodes == old(nodes) + PortSection(c, assets)
      ensures links == AddAll(old(links), if c.includePorts then PortLinks(PortIds(assets)) else [])
    {
      if c.includePorts {
        var ports, services := CollectPorts(assets);
        assert ports == PortIds(assets);
        AddPorts(c, AllOpen(assets), ports, services);
      }
    }

    method AddSections(c: Context, assets: seq<Asset>)
      requires Valid() && nodes == [] && links == []
      modifies this
      ensures nodes == BareDomains(c.domains) + Rest(c, assets) && links == Links(c, assets)
    {
      IpsNonEmpty(assets);
      AddDomains(c.domains);
      assert nodes == BareDomains(c.domains);
      AddAssets(c, assets);
      assert nodes == BareDomains(c.domains) + AssetParts(c, assets);
      var order, groups := GroupByIp(assets);
      AddIps(c, assets, order, groups);
      AddPortSection(c, assets);
      SectionsAreAttempts(c, assets);
      Regroup(BareDomains(c.domains), AssetParts(c, assets), IpParts(c, assets, order), PortSection(c, assets));
    }

    /** `asset_graph`: the sections in order, then the roots' risk. */
    method Build(c: Context, assets: seq<Asset>)
      requires Valid() && nodes == [] && links == []
      modifies this
      ensures nodes == Nodes(c, assets) && links == Links(c, assets)
    {
      AddSections(c, assets);
      var risks := RollUp(c.domains, assets);
      FillDomains(risks);
      FilledIsFinished(c, assets, risks, nodes);
    }
  }

  lemma Regroup<T>(a: seq<T>, b: seq<T>, c: seq<T>, d: seq<T>)
    ensures a + b + c + d == a + (b + c + d)
  {
  }

  lemma FilledIsFinished(c: Context, assets: seq<Asset>, risks: map<string, real>, after: seq<Node>)
    requires forall key :: RiskAt(risks, key) == RiskUnder(Parents(c.domains), assets, key)
    requires var before := BareDomains(c.domains) + Rest(c, assets);
             |after| == |before| && forall k :: 0 <= k < |after| ==> after[k] == Filled(risks, before[k])
    ensures after == Nodes(c, assets)
  {
    NoDomainsInRest(c, assets);
    FilledSplits(risks, BareDomains(c.domains), Rest(c, assets), after);
    FilledHead(c, assets, risks, after[..|c.domains|]);
  }

  /** One asset more in the nodes and in the links. */
  lemma AssetStep(c: Context, assets: seq<Asset>, i: nat, nodes: seq<Node>, links: seq<Link>)
    requires i < |assets|
    ensures nodes + AssetParts(c, assets[..i + 1]) == nodes + AssetParts(c, assets[..i]) + [AssetPart(c, assets[i])]
    ensures var parents := Parents(c.domains);
            AddAll(links, ParentLinks(parents, assets[..i + 1]))
            == AddAll(AddAll(links, ParentLinks(parents, assets[..i])), ParentLinkOf(parents(assets[i].hostname), assets[i].id))
  {
    var parents := Parents(c.domains);
    assert assets[..i + 1][..i] == assets[..i];
    AddAllAppend(links, ParentLinks(parents, assets[..i]), ParentLinkOf(parents(assets[i].hostname), assets[i].id));
  }

  /** One address more in the nodes and in the links. */
  lemma IpStep(c: Context, assets: seq<Asset>, order: seq<string>, i: nat, nodes: seq<Node>, links: seq<Link>)
    requires i < |order| && forall ip <- order :: Children(assets, ip) != []
    ensures order[i] in order
    ensures nodes + IpParts(c, assets, order[..i + 1]) == nodes + IpParts(c, assets, order[..i]) + [IpPart(c, assets, order[i])]
    ensures AddAll(links, IpLinks(assets, order[..i + 1]))
            == AddAll(AddAll(links, IpLinks(assets, order[..i])), LinksTo(order[i], Children(assets, order[i])))
  {
    var ip := order[i];
    assert order[..i + 1][..i] == order[..i];
    AddAllAppend(links, IpLinks(assets, order[..i]), LinksTo(ip, Children(assets, ip)));
  }

  /** One port more in the nodes and in the links. */
  lemma PortStep(c: Context, open: seq<Open>, order: seq<NodeId>, i: nat, nodes: seq<Node>, links: seq<Link>)
    requires i < |order| && forall id <- order :: id.PortNode?
    ensures order[i] in order
    ensures nodes + PortParts(c, open, order[..i + 1]) == nodes + PortParts(c, open, order[..i]) + [PortPart(c, open, order[i])]
    ensures AddAll(links, PortLinks(order[..i + 1]))
            == Added(AddAll(links, PortLinks(order[..i])), Link(Anchor(order[i].host), order[i]))
  {
    var l := Link(Anchor(order[i].host), order[i]);
    assert PortLinks(order[..i + 1]) == PortLinks(order[..i]) + [l];
    AddAllOne(links, PortLinks(order[..i]), l);
  }

  lemma SectionsAreAttempts(c: Context, assets: seq<Asset>)
    ensures var p, q := ParentLinks(Parents(c.domains), assets), IpLinks(assets, IpsAmong(assets));
            AddAll(AddAll(AddAll([], p), q), if c.includePorts then PortLinks(PortIds(assets)) else []) == Links(c, assets)
  {
    var p, q := ParentLinks(Parents(c.domains), assets), IpLinks(assets, IpsAmong(assets));
    AddAllAppend([], p, q);
    AddAllAppend([], p + q, if c.includePorts then PortLinks(PortIds(assets)) else []);
  }

  lemma AddAllOne<T>(s: seq<T>, more: seq<T>, x: T)
    ensures AddAll(s, more + [x]) == Added(AddAll(s, more), x)
  {
    assert (more + [x])[..|more|] == more;
  }

  /** Filling in leaves everything after the roots. */
  lemma FilledSplits(risks: map<string, real>, head: seq<Node>, rest: seq<Node>, after: seq<Node>)
    requires |after| == |head + rest| && forall k :: 0 <= k < |after| ==> after[k] == Filled(risks, (head + rest)[k])
    requires forall n <- rest :: !n.id.DomainNode?
    ensures after == after[..|head|] + rest
    ensures forall k :: 0 <= k < |head| ==> after[..|head|][k] == Filled(risks, head[k])
  {
    forall k | 0 <= k < |rest| ensures after[|head| + k] == rest[k] {
      assert (head + rest)[|head| + k] == rest[k] && rest[k] in rest;
    }
  }

  lemma FilledHead(c: Context, assets: seq<Asset>, risks: map<string, real>, head: seq<Node>)
    requires forall key :: RiskAt(risks, key) == RiskUnder(Parents(c.domains), assets, key)
    requires |head| == |c.domains| && forall k :: 0 <= k < |head| ==> head[k] == Filled(risks, BareDomains(c.domains)[k])
    ensures head == DomainParts(c, assets)
  {
    forall k | 0 <= k < |head| ensures head[k] == DomainPart(c, assets, c.domains[k]) {
      assert Render(DomainNode(c.domains[k])) == "domain:" + c.domains[k];
    }
  }

  lemma NoDomainsInRest(c: Context, assets: seq<Asset>)
    ensures forall n <- Rest(c, assets) :: !n.id.DomainNode?
  {
    IpsNonEmpty(assets);
    PortPartsAreReports(c, AllOpen(assets), PortIds(assets));
    KindsOf(AssetParts(c, assets), IpParts(c, assets, IpsAmong(assets)));
    KindsOf(AssetParts(c, assets) + IpParts(c, assets, IpsAmong(assets)), PortSection(c, assets));
  }
}
