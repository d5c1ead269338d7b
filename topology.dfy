/**
 * Topology builder of the Rust engine: one node per host with a first-match
 * type classification, hosts grouped by the first three octets of their IPv4
 * address, complete "same-subnet" graphs inside each group and "gateway" edges
 * from every likely gateway to the rest of its group.  Groups are visited in
 * hash-map order, which the model leaves open.
 */
module Topology {
  import opened Common
  import opened Text
  import opened Models

  // ------------------------------------------------------------ gateway test

  /** `rsplit(c).next()`: the text after the last `c`, or all of `s`. */
  function AfterLast(s: string, c: char): string
    decreases |s|
  {
    if s == [] then []
    else if s[|s| - 1] == c then []
    else AfterLast(s[..|s| - 1], c) + [s[|s| - 1]]
  }

  /** AfterLast is the longest suffix free of `c`. */
  lemma {:induction false} AfterLastIsLastPiece(s: string, c: char)
    ensures var r := AfterLast(s, c);
            c !in r && |r| <= |s| && r == s[|s| - |r|..]
            && (|r| < |s| ==> s[|s| - |r| - 1] == c)
    decreases |s|
  {
    if s != [] && s[|s| - 1] != c {
      AfterLastIsLastPiece(s[..|s| - 1], c);
    }
  }

  lemma {:induction false} AfterLastOfAppend(a: string, c: char, x: string)
    requires c !in x
    ensures AfterLast(a + [c] + x, c) == x
    decreases |x|
  {
    if x == [] {
    } else {
      var s := a + [c] + x;
      assert s[..|s| - 1] == a + [c] + x[..|x| - 1];
      AfterLastOfAppend(a, c, x[..|x| - 1]);
    }
  }

  /** `str::parse::<u8>`. */
  function ParseU8(s: string): (r: Option<nat>)
    ensures r.Some? ==> r.value <= 255
  {
    ParseUInt(s, 255)
  }

  /** `is_likely_gateway`: the last dot-separated piece parses as 1 or 254. */
  predicate IsLikelyGateway(ip: string) {
    var last := ParseU8(AfterLast(ip, '.'));
    last.Some? && (last.value == 1 || last.value == 254)
  }

  /** An address ending in ".<n>" is a likely gateway iff n is 1 or 254. */
  lemma GatewayIffLastOctet(prefix: string, n: nat)
    requires n <= 255
    ensures IsLikelyGateway(prefix + "." + NatToString(n)) <==> n == 1 || n == 254
  {
    var x := NatToString(n);
    assert forall k :: 0 <= k < |x| ==> x[k] != '.';
    AfterLastOfAppend(prefix, '.', x);
    ParseUIntOfNatToString(n, 255);
  }

  // ------------------------------------------------------------ classification

  const NetworkVendors: seq<string> := ["cisco", "ubiquiti", "juniper", "mikrotik", "netgear", "tp-link"]
  const IotVendors: seq<string> :=
    ["nest", "ring", "wyze", "sonos", "philips", "ecobee", "chamberlain", "espressif", "tuya", "shenzhen"]
  const ServerPorts: set<U16> := {53, 80, 443, 8080, 8443, 25, 993, 995, 3306, 5432, 27017}
  const WorkstationPorts: set<U16> := {22, 3389, 5900}

  /** Some listed name occurs in the lowercased vendor string. */
  predicate VendorMentions(vendor: string, names: seq<string>) {
    exists k :: 0 <= k < |names| && Contains(Lower(vendor), names[k])
  }

  predicate HasPortIn(ports: seq<U16>, wanted: set<U16>) {
    exists k :: 0 <= k < |ports| && ports[k] in wanted
  }

  /** `classify_node`. */
  function ClassifyNode(host: Host): (r: string)
    ensures r in {"router", "server", "iot", "workstation", "unknown"}
  {
    if IsLikelyGateway(host.ip) then "router"
    else if VendorMentions(host.vendor, NetworkVendors) then "router"
    else if HasPortIn(host.ports, ServerPorts) then "server"
    else if VendorMentions(host.vendor, IotVendors) then "iot"
    else if HasPortIn(host.ports, WorkstationPorts) then "workstation"
    else "unknown"
  }

  /** The five outcomes of the classifier, each as the first rule that fires. */
  lemma ClassificationOrder(host: Host)
    ensures var gw := IsLikelyGateway(host.ip) || VendorMentions(host.vendor, NetworkVendors);
            var server := HasPortIn(host.ports, ServerPorts);
            var iot := VendorMentions(host.vendor, IotVendors);
            var ws := HasPortIn(host.ports, WorkstationPorts);
            (ClassifyNode(host) == "router" <==> gw)
            && (ClassifyNode(host) == "server" <==> !gw && server)
            && (ClassifyNode(host) == "iot" <==> !gw && !server && iot)
            && (ClassifyNode(host) == "workstation" <==> !gw && !server && !iot && ws)
            && (ClassifyNode(host) == "unknown" <==> !gw && !server && !iot && !ws)
  {
  }

  /** The label rule: the IP stands in for an empty or "Unknown" hostname. */
  function LabelOf(host: Host): (r: string)
    ensures r == host.ip <==> host.hostname == "" || host.hostname == "Unknown" || host.hostname == host.ip
    ensures r != host.ip ==> r == host.hostname
  {
    if host.hostname == "" || host.hostname == "Unknown" then host.ip else host.hostname
  }

  /** The node of one host. */
  function NodeOf(host: Host): TopoNode {
    TopoNode(host.ip, LabelOf(host), ClassifyNode(host), host.ports, host.os)
  }

  // ------------------------------------------------------------ grouping

  /** The /24 group key "a.b.c." of a four-part dotted address. */
  function SubnetKey(ip: string): (r: Option<string>)
    ensures r.Some? <==> |Split(ip, '.')| == 4
  {
    var parts := Split(ip, '.');
    if |parts| == 4 then Some(parts[0] + "." + parts[1] + "." + parts[2] + ".") else None
  }

  /** The hosts of group `key`, in input order. */
  function Members(hosts: seq<Host>, key: string): (g: seq<Host>)
    ensures forall k :: 0 <= k < |g| ==> g[k] in hosts && SubnetKey(g[k].ip) == Some(key)
    ensures forall h :: h in hosts && SubnetKey(h.ip) == Some(key) ==> h in g
    decreases |hosts|
  {
    if hosts == [] then []
    else
      var init := Members(hosts[..|hosts| - 1], key);
      var last := hosts[|hosts| - 1];
      assert forall h :: h in hosts ==> h in hosts[..|hosts| - 1] || h == last;
      if SubnetKey(last.ip) == Some(key) then init + [last] else init
  }

  /** The result of `group_by_subnet`, as a map from key to its members. */
  function Groups(hosts: seq<Host>): (m: map<string, seq<Host>>)
    ensures forall key :: key in m <==> Members(hosts, key) != []
    ensures forall key :: key in m ==> m[key] == Members(hosts, key)
    decreases |hosts|
  {
    if hosts == [] then map[]
    else
      var init := hosts[..|hosts| - 1];
      var last := hosts[|hosts| - 1];
      var m := Groups(init);
      match SubnetKey(last.ip)
      case None => m
      case Some(key) => m[key := (if key in m then m[key] else []) + [last]]
  }

  lemma GroupsStep(hosts: seq<Host>, i: nat)
    requires i < |hosts|
    ensures var m := Groups(hosts[..i]);
            Groups(hosts[..i + 1]) == match SubnetKey(hosts[i].ip)
              case None => m
              case Some(key) => m[key := (if key in m then m[key] else []) + [hosts[i]]]
  {
    assert hosts[..i + 1][..i] == hosts[..i];
  }

  /** `group_by_subnet`. */
  method GroupBySubnet(hosts: seq<Host>) returns (groups: map<string, seq<Host>>)
    ensures groups == Groups(hosts)
  {
    groups := map[];
    var i := 0;
    while i < |hosts|
      invariant 0 <= i <= |hosts|
      invariant groups == Groups(hosts[..i])
    {
      var host := hosts[i];
      GroupsStep(hosts, i);
      var parts := Split(host.ip, '.');
      if |parts| == 4 {
        var subnet := parts[0] + "." + parts[1] + "." + parts[2] + ".";
        var members := if subnet in groups then groups[subnet] else [];
        groups := groups[subnet := members + [host]];
      }
      i := i + 1;
    }
    assert hosts[..i] == hosts;
  }

  // ------------------------------------------------------------ edges

  function Edge(a: Host, b: Host, evidence: string): TopoEdge {
    TopoEdge(a.ip, b.ip, evidence)
  }

  /** Row `i` of the same-subnet triangle: host i to each host after it. */
  function Row(g: seq<Host>, i: nat, j: nat): (r: seq<TopoEdge>)
    requires i < |g| && i < j <= |g|
    ensures |r| == j - i - 1
    ensures forall k :: 0 <= k < |r| ==> r[k] == Edge(g[i], g[i + 1 + k], "same-subnet")
  {
    seq(j - i - 1, k requires 0 <= k < j - i - 1 => Edge(g[i], g[i + 1 + k], "same-subnet"))
  }

  /** Rows 0..i-1 of the same-subnet triangle, in loop order. */
  function Triangle(g: seq<Host>, i: nat): (r: seq<TopoEdge>)
    requires i <= |g|
    decreases i
  {
    if i == 0 then [] else Triangle(g, i - 1) + Row(g, i - 1, |g|)
  }

  /** The same-subnet edges of a group: one per index pair i < j, source host i. */
  function SameSubnetEdges(g: seq<Host>): seq<TopoEdge> {
    Triangle(g, |g|)
  }

  predicate IsGatewayEdgeBetween(e: TopoEdge, a: string, b: string) {
    e.evidence == "gateway" && ((e.source == a && e.target == b) || (e.source == b && e.target == a))
  }

  /** The `has_edge` scan: some gateway edge already joins `a` and `b`, either way round. */
  predicate HasGatewayEdge(edges: seq<TopoEdge>, a: string, b: string) {
    exists k :: 0 <= k < |edges| && IsGatewayEdgeBetween(edges[k], a, b)
  }

  /** One step of the inner gateway loop: `host` towards `other`. */
  function GatewayStep(host: Host, other: Host, edges: seq<TopoEdge>): seq<TopoEdge> {
    if other.ip != host.ip && !HasGatewayEdge(edges, host.ip, other.ip)
    then edges + [Edge(host, other, "gateway")]
    else edges
  }

  /** The inner gateway loop for `host`, from member j on. */
  function GatewayFrom(host: Host, g: seq<Host>, j: nat, edges: seq<TopoEdge>): seq<TopoEdge>
    requires j <= |g|
    decreases |g| - j
  {
    if j == |g| then edges else GatewayFrom(host, g, j + 1, GatewayStep(host, g[j], edges))
  }

  /** The outer gateway loop over the members, from member i on. */
  function GatewayPass(g: seq<Host>, i: nat, edges: seq<TopoEdge>): seq<TopoEdge>
    requires i <= |g|
    decreases |g| - i
  {
    if i == |g| then edges
    else GatewayPass(g, i + 1, if IsLikelyGateway(g[i].ip) then GatewayFrom(g[i], g, 0, edges) else edges)
  }

  /** What one group adds to the edge list `edges` built so far. */
  function GroupEdges(g: seq<Host>, edges: seq<TopoEdge>): seq<TopoEdge> {
    GatewayPass(g, 0, edges + SameSubnetEdges(g))
  }

  /** The edge list after visiting the groups in `order`. */
  function AllEdges(groups: map<string, seq<Host>>, order: seq<string>): seq<TopoEdge>
    requires forall k :: 0 <= k < |order| ==> order[k] in groups
    decreases |order|
  {
    if order == [] then []
    else GroupEdges(groups[order[|order| - 1]], AllEdges(groups, order[..|order| - 1]))
  }

  /** The same-subnet double loop of one group. */
  method AddSameSubnetEdges(g: seq<Host>, edges0: seq<TopoEdge>) returns (edges: seq<TopoEdge>)
    ensures edges == edges0 + SameSubnetEdges(g)
  {
    edges := edges0;
    for i := 0 to |g|
      invariant edges == edges0 + Triangle(g, i)
    {
      ghost var before := edges;
      for j := i + 1 to |g|
        invariant edges == before + Row(g, i, j)
      {
        assert Row(g, i, j + 1) == Row(g, i, j) + [Edge(g[i], g[j], "same-subnet")];
        edges := edges + [TopoEdge(g[i].ip, g[j].ip, "same-subnet")];
      }
    }
  }

  /** `edges.iter().any(...)` for the gateway duplicate check. */
  method FindGatewayEdge(edges: seq<TopoEdge>, a: string, b: string) returns (found: bool)
    ensures found == HasGatewayEdge(edges, a, b)
  {
    found := false;
    var k := 0;
    while k < |edges| && !found
      invariant 0 <= k <= |edges|
      invariant found <==> exists q :: 0 <= q < k && IsGatewayEdgeBetween(edges[q], a, b)
    {
      found := IsGatewayEdgeBetween(edges[k], a, b);
      k := k + 1;
    }
  }

  /** The inner gateway loop of one likely gateway `host`. */
  method AddGatewayEdgesFrom(host: Host, g: seq<Host>, edges0: seq<TopoEdge>) returns (edges: seq<TopoEdge>)
    ensures edges == GatewayFrom(host, g, 0, edges0)
  {
    edges := edges0;
    for j := 0 to |g|
      invariant GatewayFrom(host, g, j, edges) == GatewayFrom(host, g, 0, edges0)
    {
      var other := g[j];
      if other.ip != host.ip {
        var hasEdge := FindGatewayEdge(edges, host.ip, other.ip);
        if !hasEdge {
          edges := edges + [TopoEdge(host.ip, other.ip, "gateway")];
        }
      }
    }
  }

  /** The gateway double loop of one group. */
  method AddGatewayEdges(g: seq<Host>, edges0: seq<TopoEdge>) returns (edges: seq<TopoEdge>)
    ensures edges == GatewayPass(g, 0, edges0)
  {
    edges := edges0;
    for i := 0 to |g|
      invariant GatewayPass(g, i, edges) == GatewayPass(g, 0, edges0)
    {
      var host := g[i];
      if IsLikelyGateway(host.ip) {
        edges := AddGatewayEdgesFrom(host, g, edges);
      }
    }
  }

  /** The node list of `build`: NodeOf of every host, in input order. */
  function NodesOf(hosts: seq<Host>): (r: seq<TopoNode>)
    ensures |r| == |hosts|
    decreases |hosts|
  {
    if hosts == [] then [] else NodesOf(hosts[..|hosts| - 1]) + [NodeOf(hosts[|hosts| - 1])]
  }

  /** One node per host, in input order, carrying its IP, ports and OS. */
  lemma {:induction false} NodesOfEntry(hosts: seq<Host>, i: nat)
    requires i < |hosts|
    ensures NodesOf(hosts)[i] == NodeOf(hosts[i])
    ensures NodesOf(hosts)[i].id == hosts[i].ip && NodesOf(hosts)[i].ports == hosts[i].ports
    ensures NodesOf(hosts)[i].os == hosts[i].os
    decreases |hosts|
  {
    if i < |hosts| - 1 {
      NodesOfEntry(hosts[..|hosts| - 1], i);
    }
  }

  /**
   * `build`.  The ghost `order` is the hash-map order in which the groups were
   * visited: a permutation of the group keys.
   */
  method Build(hosts: seq<Host>) returns (r: TopologyResult, ghost order: seq<string>)
    ensures r.nodes == NodesOf(hosts)
    ensures NoDuplicates(order) && (forall key :: key in order <==> key in Groups(hosts))
    ensures r.edges == AllEdges(Groups(hosts), order)
  {
    var nodes := BuildNodes(hosts);
    var groups := GroupBySubnet(hosts);
    var edges;
    edges, order := BuildEdges(groups);
    r := TopologyResult(nodes, edges);
  }

  /** The node loop of `build`. */
  method BuildNodes(hosts: seq<Host>) returns (nodes: seq<TopoNode>)
    ensures nodes == NodesOf(hosts)
  {
    nodes := [];
    for i := 0 to |hosts|
      invariant nodes == NodesOf(hosts[..i])
    {
      NodesOfStep(hosts, i);
      var node := MakeNode(hosts[i]);
      nodes := nodes + [node];
    }
    assert hosts[..|hosts|] == hosts;
  }

  lemma NodesOfStep(hosts: seq<Host>, i: nat)
    requires i < |hosts|
    ensures NodesOf(hosts[..i + 1]) == NodesOf(hosts[..i]) + [NodeOf(hosts[i])]
  {
    assert hosts[..i + 1][..i] == hosts[..i];
  }

  /** The body of the node loop for one host. */
  method MakeNode(host: Host) returns (node: TopoNode)
    ensures node == NodeOf(host)
  {
    var nodeType := ClassifyNode(host);
    var labelText := if host.hostname == "" || host.hostname == "Unknown" then host.ip else host.hostname;
    node := TopoNode(host.ip, labelText, nodeType, host.ports, host.os);
  }

  /** The edge loop of `build`, over the groups in hash-map order. */
  method BuildEdges(groups: map<string, seq<Host>>) returns (edges: seq<TopoEdge>, ghost order: seq<string>)
    ensures NoDuplicates(order) && (forall key :: key in order <==> key in groups)
    ensures forall k :: 0 <= k < |order| ==> order[k] in groups
    ensures edges == AllEdges(groups, order)
  {
    edges := [];
    order := [];
    var rest := groups.Keys;
    while rest != {}
      invariant rest <= groups.Keys
      invariant NoDuplicates(order)
      invariant forall key :: key in order <==> key in groups && key !in rest
      invariant edges == AllEdges(groups, order)
      decreases |rest|
    {
      var subnet :| subnet in rest;
      var members := groups[subnet];
      edges := AddSameSubnetEdges(members, edges);
      edges := AddGatewayEdges(members, edges);
      assert (order + [subnet])[..|order|] == order;
      order := order + [subnet];
      rest := rest - {subnet};
    }
  }

  // ------------------------------------------------------------ properties

  /** A group of n hosts has n(n-1)/2 same-subnet edges. */
  lemma {:induction false} TriangleSize(g: seq<Host>, i: nat)
    requires i <= |g|
    ensures 2 * |Triangle(g, i)| == i * (2 * |g| - i - 1)
    decreases i
  {
    if i > 0 {
      TriangleSize(g, i - 1);
      var t := |Triangle(g, i - 1)|;
      assert |Triangle(g, i)| == t + (|g| - i);
      TriangleStep(i, |g|, t);
    }
  }

  /** One more row of n - i edges keeps the closed form. */
  lemma TriangleStep(i: int, n: int, t: int)
    requires 2 * t == (i - 1) * (2 * n - i)
    ensures 2 * (t + (n - i)) == i * (2 * n - i - 1)
  {
    calc {
      2 * (t + (n - i));
      (i - 1) * (2 * n - i) + 2 * (n - i);
      { assert (i - 1) * (2 * n - i) == i * (2 * n - i) - (2 * n - i); }
      i * (2 * n - i) - (2 * n - i) + 2 * (n - i);
      i * (2 * n - i) - i;
      { assert i * (2 * n - i) - i == i * (2 * n - i - 1); }
      i * (2 * n - i - 1);
    }
  }

  lemma SameSubnetEdgeCount(g: seq<Host>)
    ensures 2 * |SameSubnetEdges(g)| == |g| * (|g| - 1)
  {
    TriangleSize(g, |g|);
  }

  /** Every same-subnet edge comes from a pair a < b, with host a as source. */
  lemma {:induction false} TriangleSource(g: seq<Host>, i: nat, e: TopoEdge) returns (a: nat, b: nat)
    requires i <= |g| && e in Triangle(g, i)
    ensures a < i && a < b < |g| && e == Edge(g[a], g[b], "same-subnet")
    decreases i
  {
    var row := Row(g, i - 1, |g|);
    if e in row {
      var k :| 0 <= k < |row| && row[k] == e;
      a, b := i - 1, i + k;
    } else {
      a, b := TriangleSource(g, i - 1, e);
    }
  }

  /** Every pair a < b in the first i rows has its same-subnet edge. */
  lemma {:induction false} TrianglePair(g: seq<Host>, i: nat, a: nat, b: nat)
    requires i <= |g| && a < i && a < b < |g|
    ensures Edge(g[a], g[b], "same-subnet") in Triangle(g, i)
    decreases i
  {
    var row := Row(g, i - 1, |g|);
    if a == i - 1 {
      assert row[b - i] == Edge(g[a], g[b], "same-subnet");
    } else {
      TrianglePair(g, i - 1, a, b);
    }
  }

  lemma SameSubnetEdgesArePairs(g: seq<Host>, e: TopoEdge)
    ensures e in SameSubnetEdges(g) <==>
      exists a, b :: 0 <= a < b < |g| && e == Edge(g[a], g[b], "same-subnet")
  {
    if e in SameSubnetEdges(g) {
      var a, b := TriangleSource(g, |g|, e);
    }
    if exists a, b :: 0 <= a < b < |g| && e == Edge(g[a], g[b], "same-subnet") {
      var a, b :| 0 <= a < b < |g| && e == Edge(g[a], g[b], "same-subnet");
      TrianglePair(g, |g|, a, b);
    }
  }

  /** An edge a group may add: same-subnet between members, or from a likely gateway member to another IP. */
  predicate GroupEdge(g: seq<Host>, e: TopoEdge) {
    exists a, b :: 0 <= a < |g| && 0 <= b < |g| && e.source == g[a].ip && e.target == g[b].ip
      && (e.evidence == "same-subnet"
          || (e.evidence == "gateway" && IsLikelyGateway(e.source) && e.source != e.target))
  }

  lemma {:induction false} GatewayFromExtends(host: Host, g: seq<Host>, j: nat, edges: seq<TopoEdge>)
    requires j <= |g|
    ensures edges <= GatewayFrom(host, g, j, edges)
    decreases |g| - j
  {
    if j < |g| {
      GatewayFromExtends(host, g, j + 1, GatewayStep(host, g[j], edges));
    }
  }

  lemma {:induction false} GatewayFromAdds(host: Host, g: seq<Host>, j: nat, edges: seq<TopoEdge>, e: TopoEdge)
    requires j <= |g| && host in g && IsLikelyGateway(host.ip)
    requires e in GatewayFrom(host, g, j, edges)
    ensures e in edges || GroupEdge(g, e)
    decreases |g| - j
  {
    if j < |g| {
      var next := GatewayStep(host, g[j], edges);
      GatewayFromAdds(host, g, j + 1, next, e);
      if e !in edges && e in next {
        GatewayStepAdds(host, g, j, edges, e);
      }
    }
  }

  lemma GatewayStepAdds(host: Host, g: seq<Host>, j: nat, edges: seq<TopoEdge>, e: TopoEdge)
    requires j < |g| && host in g && IsLikelyGateway(host.ip)
    requires e in GatewayStep(host, g[j], edges) && e !in edges
    ensures GroupEdge(g, e)
  {
    assert e == Edge(host, g[j], "gateway");
    var a :| 0 <= a < |g| && g[a] == host;
    assert e.source == g[a].ip && e.target == g[j].ip;
  }

  lemma {:induction false} GatewayPassExtends(g: seq<Host>, i: nat, edges: seq<TopoEdge>)
    requires i <= |g|
    ensures edges <= GatewayPass(g, i, edges)
    decreases |g| - i
  {
    if i < |g| {
      var next := if IsLikelyGateway(g[i].ip) then GatewayFrom(g[i], g, 0, edges) else edges;
      GatewayFromExtends(g[i], g, 0, edges);
      GatewayPassExtends(g, i + 1, next);
    }
  }

  lemma {:induction false} GatewayPassAdds(g: seq<Host>, i: nat, edges: seq<TopoEdge>, e: TopoEdge)
    requires i <= |g|
    requires e in GatewayPass(g, i, edges)
    ensures e in edges || GroupEdge(g, e)
    decreases |g| - i
  {
    if i < |g| {
      var next := if IsLikelyGateway(g[i].ip) then GatewayFrom(g[i], g, 0, edges) else edges;
      GatewayPassAdds(g, i + 1, next, e);
      if IsLikelyGateway(g[i].ip) && e in next {
        GatewayFromAdds(g[i], g, 0, edges, e);
      }
    }
  }

  /** A group only appends, and what it appends joins two of its own members. */
  lemma GroupEdgesAdd(g: seq<Host>, edges: seq<TopoEdge>, e: TopoEdge)
    requires e in GroupEdges(g, edges)
    ensures edges <= GroupEdges(g, edges)
    ensures e in edges || GroupEdge(g, e)
  {
    var withPairs := edges + SameSubnetEdges(g);
    GatewayPassExtends(g, 0, withPairs);
    GatewayPassAdds(g, 0, withPairs, e);
    if e in SameSubnetEdges(g) {
      SameSubnetEdgesArePairs(g, e);
    }
  }

  /** Every edge of a build joins two hosts of one /24 group. */
  predicate WithinOneSubnet(e: TopoEdge) {
    SubnetKey(e.source).Some? && SubnetKey(e.source) == SubnetKey(e.target)
  }

  /** Every member of a group carries that group's key. */
  predicate KeyedGroups(groups: map<string, seq<Host>>) {
    forall key, a :: key in groups && 0 <= a < |groups[key]| ==> SubnetKey(groups[key][a].ip) == Some(key)
  }

  lemma GroupsAreKeyed(hosts: seq<Host>)
    ensures KeyedGroups(Groups(hosts))
  {
  }

  /**
   * Hosts in different groups never share an edge, and every gateway edge
   * starts at a likely gateway and joins two different IPs.
   */
  lemma {:induction false} EdgesStayInSubnet(groups: map<string, seq<Host>>, order: seq<string>, e: TopoEdge)
    requires KeyedGroups(groups)
    requires forall k :: 0 <= k < |order| ==> order[k] in groups
    requires e in AllEdges(groups, order)
    ensures WithinOneSubnet(e) && SubnetKey(e.source).value in order
    ensures e.evidence == "same-subnet" || e.evidence == "gateway"
    ensures e.evidence == "gateway" ==> IsLikelyGateway(e.source) && e.source != e.target
    decreases |order|
  {
    var key := order[|order| - 1];
    var before := AllEdges(groups, order[..|order| - 1]);
    GroupEdgesAdd(groups[key], before, e);
    if e in before {
      EdgesStayInSubnet(groups, order[..|order| - 1], e);
    } else {
      var g := groups[key];
      var a, b :| 0 <= a < |g| && 0 <= b < |g| && e.source == g[a].ip && e.target == g[b].ip
        && (e.evidence == "same-subnet"
            || (e.evidence == "gateway" && IsLikelyGateway(e.source) && e.source != e.target));
      assert SubnetKey(g[a].ip) == Some(key) && SubnetKey(g[b].ip) == Some(key);
    }
  }

  lemma BuildEdgesStayInSubnet(hosts: seq<Host>, order: seq<string>, e: TopoEdge)
    requires forall k :: 0 <= k < |order| ==> order[k] in Groups(hosts)
    requires e in AllEdges(Groups(hosts), order)
    ensures WithinOneSubnet(e)
    ensures e.evidence == "same-subnet" || e.evidence == "gateway"
    ensures e.evidence == "gateway" ==> IsLikelyGateway(e.source) && e.source != e.target
  {
    GroupsAreKeyed(hosts);
    EdgesStayInSubnet(Groups(hosts), order, e);
  }

  /** A host that is a router only by vendor is the source of no gateway edge. */
  lemma VendorRouterHasNoGatewayEdges(hosts: seq<Host>, order: seq<string>, host: Host, e: TopoEdge)
    requires forall k :: 0 <= k < |order| ==> order[k] in Groups(hosts)
    requires ClassifyNode(host) == "router" && !IsLikelyGateway(host.ip)
    requires e in AllEdges(Groups(hosts), order) && e.evidence == "gateway"
    ensures e.source != host.ip
  {
    BuildEdgesStayInSubnet(hosts, order, e);
  }

  predicate DistinctIps(g: seq<Host>) {
    forall a, b :: 0 <= a < b < |g| ==> g[a].ip != g[b].ip
  }

  /** Member m is the only likely gateway of the group. */
  predicate LoneGateway(g: seq<Host>, m: nat) {
    m < |g| && IsLikelyGateway(g[m].ip)
    && forall a :: 0 <= a < |g| && a != m ==> !IsLikelyGateway(g[a].ip)
  }

  /** A pass over members none of which is a likely gateway adds nothing. */
  lemma {:induction false} PassWithoutGateways(g: seq<Host>, i: nat, edges: seq<TopoEdge>)
    requires i <= |g|
    requires forall a :: i <= a < |g| ==> !IsLikelyGateway(g[a].ip)
    ensures GatewayPass(g, i, edges) == edges
    decreases |g| - i
  {
    if i < |g| {
      PassWithoutGateways(g, i + 1, edges);
    }
  }

  lemma PassAfterLoneGateway(g: seq<Host>, m: nat, i: nat, edges: seq<TopoEdge>)
    requires LoneGateway(g, m) && m < i <= |g|
    ensures GatewayPass(g, i, edges) == edges
  {
    PassWithoutGateways(g, i, edges);
  }

  lemma PassUpToLoneGateway(g: seq<Host>, m: nat, i: nat, edges: seq<TopoEdge>)
    requires LoneGateway(g, m) && i <= m
    ensures GatewayPass(g, i, edges) == GatewayFrom(g[m], g, 0, edges)
  {
    PassSkipTo(g, i, m, edges);
    PassAtGateway(g, m, edges);
    PassAfterLoneGateway(g, m, m + 1, GatewayFrom(g[m], g, 0, edges));
  }

  /** Members i..m-1 are no likely gateways: the pass reaches member m with the edges unchanged. */
  lemma {:induction false} PassSkipTo(g: seq<Host>, i: nat, m: nat, edges: seq<TopoEdge>)
    requires i <= m <= |g|
    requires forall a :: i <= a < m ==> !IsLikelyGateway(g[a].ip)
    ensures GatewayPass(g, i, edges) == GatewayPass(g, m, edges)
    decreases m - i
  {
    if i < m {
      PassSkipTo(g, i + 1, m, edges);
      assert !IsLikelyGateway(g[i].ip);
    }
  }

  lemma PassAtGateway(g: seq<Host>, i: nat, edges: seq<TopoEdge>)
    requires i < |g| && IsLikelyGateway(g[i].ip)
    ensures GatewayPass(g, i, edges) == GatewayPass(g, i + 1, GatewayFrom(g[i], g, 0, edges))
  {
  }

  /** The gateway edges in `edges` all run from `host` to members before j. */
  predicate GatewayEdgesSoFar(edges: seq<TopoEdge>, host: Host, g: seq<Host>, j: nat)
    requires j <= |g|
  {
    forall q :: 0 <= q < |edges| && edges[q].evidence == "gateway" ==>
      edges[q].source == host.ip && exists k :: 0 <= k < j && edges[q].target == g[k].ip
  }

  lemma {:induction false} GatewayFromCount(g: seq<Host>, m: nat, j: nat, edges: seq<TopoEdge>)
    requires DistinctIps(g) && m < |g| && j <= |g|
    requires GatewayEdgesSoFar(edges, g[m], g, j)
    ensures |GatewayFrom(g[m], g, j, edges)| == |edges| + (|g| - j) - (if m >= j then 1 else 0)
    decreases |g| - j
  {
    if j < |g| {
      var host := g[m];
      assert GatewayFrom(host, g, j, edges) == GatewayFrom(host, g, j + 1, GatewayStep(host, g[j], edges));
      if j == m {
        assert GatewayStep(host, g[j], edges) == edges;
        GatewayFromCount(g, m, j + 1, edges);
      } else {
        var next := GatewayStepAppends(g, m, j, edges);
        GatewayFromCount(g, m, j + 1, next);
      }
    }
  }

  /** Towards a member not yet visited, the step adds the gateway edge and keeps the edges accounted for. */
  lemma GatewayStepAppends(g: seq<Host>, m: nat, j: nat, edges: seq<TopoEdge>) returns (next: seq<TopoEdge>)
    requires DistinctIps(g) && m < |g| && j < |g| && j != m
    requires GatewayEdgesSoFar(edges, g[m], g, j)
    ensures next == GatewayStep(g[m], g[j], edges) == edges + [Edge(g[m], g[j], "gateway")]
    ensures GatewayEdgesSoFar(next, g[m], g, j + 1)
  {
    var host := g[m];
    assert g[j].ip != host.ip;
    next := edges + [Edge(host, g[j], "gateway")];
    assert !HasGatewayEdge(edges, host.ip, g[j].ip);
    forall q | 0 <= q < |next| && next[q].evidence == "gateway"
      ensures next[q].source == host.ip && exists k :: 0 <= k < j + 1 && next[q].target == g[k].ip
    {
      if q == |edges| {
        assert next[q].target == g[j].ip;
      } else {
        assert next[q] == edges[q];
      }
    }
  }

  lemma NoGatewayInSameSubnetEdges(g: seq<Host>, host: Host)
    ensures GatewayEdgesSoFar(SameSubnetEdges(g), host, g, 0)
  {
    var pairs := SameSubnetEdges(g);
    forall q | 0 <= q < |pairs|
      ensures pairs[q].evidence == "same-subnet"
    {
      SameSubnetEdgesArePairs(g, pairs[q]);
    }
  }

  /**
   * A group of n distinct IPs with a single likely gateway gets its
   * n(n-1)/2 same-subnet edges and n-1 gateway edges.
   */
  lemma LoneGatewayEdgeCount(g: seq<Host>, m: nat)
    requires DistinctIps(g) && LoneGateway(g, m)
    ensures 2 * |GroupEdges(g, [])| == |g| * (|g| - 1) + 2 * (|g| - 1)
  {
    var pairs := SameSubnetEdges(g);
    assert [] + pairs == pairs;
    PassUpToLoneGateway(g, m, 0, pairs);
    NoGatewayInSameSubnetEdges(g, g[m]);
    GatewayFromCount(g, m, 0, pairs);
    SameSubnetEdgeCount(g);
  }

  /** The edges of each group built on its own, concatenated in visiting order. */
  function PerGroupEdges(groups: map<string, seq<Host>>, order: seq<string>): seq<TopoEdge>
    requires forall k :: 0 <= k < |order| ==> order[k] in groups
    decreases |order|
  {
    if order == [] then []
    else PerGroupEdges(groups, order[..|order| - 1]) + GroupEdges(groups[order[|order| - 1]], [])
  }

  /** No edge of `prev` starts inside group `key`. */
  predicate NoEdgeFrom(prev: seq<TopoEdge>, key: string) {
    forall q :: 0 <= q < |prev| ==> SubnetKey(prev[q].source) != Some(key)
  }

  predicate AllKeyed(g: seq<Host>, key: string) {
    forall a :: 0 <= a < |g| ==> SubnetKey(g[a].ip) == Some(key)
  }

  lemma {:induction false} GatewayFromLocal(host: Host, g: seq<Host>, j: nat, prev: seq<TopoEdge>, edges: seq<TopoEdge>, key: string)
    requires j <= |g| && AllKeyed(g, key) && SubnetKey(host.ip) == Some(key) && NoEdgeFrom(prev, key)
    ensures GatewayFrom(host, g, j, prev + edges) == prev + GatewayFrom(host, g, j, edges)
    decreases |g| - j
  {
    if j < |g| {
      var other := g[j];
      assert SubnetKey(other.ip) == Some(key);
      assert HasGatewayEdge(prev + edges, host.ip, other.ip) == HasGatewayEdge(edges, host.ip, other.ip) by {
        if HasGatewayEdge(prev + edges, host.ip, other.ip) {
          var q :| 0 <= q < |prev + edges| && IsGatewayEdgeBetween((prev + edges)[q], host.ip, other.ip);
          if q >= |prev| {
            assert (prev + edges)[q] == edges[q - |prev|];
          }
        }
        if HasGatewayEdge(edges, host.ip, other.ip) {
          var q :| 0 <= q < |edges| && IsGatewayEdgeBetween(edges[q], host.ip, other.ip);
          assert (prev + edges)[|prev| + q] == edges[q];
        }
      }
      var next := GatewayStep(host, other, edges);
      assert GatewayStep(host, other, prev + edges) == prev + next;
      GatewayFromLocal(host, g, j + 1, prev, next, key);
    }
  }

  lemma {:induction false} GatewayPassLocal(g: seq<Host>, i: nat, prev: seq<TopoEdge>, edges: seq<TopoEdge>, key: string)
    requires i <= |g| && AllKeyed(g, key) && NoEdgeFrom(prev, key)
    ensures GatewayPass(g, i, prev + edges) == prev + GatewayPass(g, i, edges)
    decreases |g| - i
  {
    if i < |g| {
      if IsLikelyGateway(g[i].ip) {
        GatewayFromLocal(g[i], g, 0, prev, edges, key);
        GatewayPassLocal(g, i + 1, prev, GatewayFrom(g[i], g, 0, edges), key);
      } else {
        GatewayPassLocal(g, i + 1, prev, edges, key);
      }
    }
  }

  /**
   * The duplicate check scans every edge built so far, but edges of other
   * groups never match: each group's edges are what it would build alone.
   */
  lemma GroupEdgesLocal(g: seq<Host>, prev: seq<TopoEdge>, key: string)
    requires AllKeyed(g, key) && NoEdgeFrom(prev, key)
    ensures GroupEdges(g, prev) == prev + GroupEdges(g, [])
  {
    var pairs := SameSubnetEdges(g);
    assert [] + pairs == pairs;
    GatewayPassLocal(g, 0, prev, pairs, key);
  }

  lemma {:induction false} EdgesPerGroup(groups: map<string, seq<Host>>, order: seq<string>)
    requires KeyedGroups(groups) && NoDuplicates(order)
    requires forall k :: 0 <= k < |order| ==> order[k] in groups
    ensures AllEdges(groups, order) == PerGroupEdges(groups, order)
    decreases |order|
  {
    if order != [] {
      var init := order[..|order| - 1];
      var key := order[|order| - 1];
      assert NoDuplicates(init) by {
        assert forall a, b :: 0 <= a < b < |init| ==> init[a] == order[a] && init[b] == order[b];
      }
      EdgesPerGroup(groups, init);
      var prev := AllEdges(groups, init);
      assert NoEdgeFrom(prev, key) by {
        forall q | 0 <= q < |prev| ensures SubnetKey(prev[q].source) != Some(key) {
          EdgesStayInSubnet(groups, init, prev[q]);
          assert key !in init;
        }
      }
      GroupEdgesLocal(groups[key], prev, key);
    }
  }

  /** The build's edge list is the per-group edge lists, in the order the groups were visited. */
  lemma BuildEdgesPerGroup(hosts: seq<Host>, order: seq<string>)
    requires NoDuplicates(order) && forall k :: 0 <= k < |order| ==> order[k] in Groups(hosts)
    ensures AllEdges(Groups(hosts), order) == PerGroupEdges(Groups(hosts), order)
  {
    GroupsAreKeyed(hosts);
    EdgesPerGroup(Groups(hosts), order);
  }

  /** No input hosts: no nodes, no groups and so no edges. */
  lemma EmptyBuild()
    ensures NodesOf([]) == [] && Groups([]) == map[]
  {
  }
}
