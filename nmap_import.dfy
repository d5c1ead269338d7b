/**
 * Import of an nmap XML report into the renderer's host list.  Reading the
 * file and cutting it into `<host>` and `<port>` blocks is not modelled:
 * each block arrives with the attribute values its regular expressions
 * captured (`None` where a pattern did not match).  A host is kept unless it
 * is down or has no address; its open ports are collected, sorted, and
 * detailed for a later deep inspection.
 */
module NmapImport {
  import opened Common
  import opened Text

  /** A `<port>` block: its state, numeric `portid`, protocol, service name, product and version. */
  datatype PortBlock = PortBlock(
    state: Option<string>,
    portId: Option<nat>,
    protocol: Option<string>,
    service: Option<string>,
    product: Option<string>,
    version: Option<string>)

  /** The MAC `<address>` and its optional vendor attribute. */
  datatype MacAddress = MacAddress(addr: string, vendor: Option<string>)

  /** A `<host>` block. */
  datatype HostBlock = HostBlock(
    status: Option<string>,
    ipv4: Option<string>,
    ipv6: Option<string>,
    mac: Option<MacAddress>,
    hostname: Option<string>,
    osMatch: Option<string>,
    portBlocks: seq<PortBlock>)

  /** One entry of `nmapData.importedPorts`. */
  datatype ImportedPort = ImportedPort(port: nat, protocol: string, service: string, product: string, version: string)

  /** An imported host; `nmapData` is `None` (null) when no port is open. */
  datatype NmapHost = NmapHost(
    source: string,
    ip: string,
    mac: Option<string>,
    vendor: Option<string>,
    hostname: Option<string>,
    os: Option<string>,
    ports: seq<nat>,
    nmapData: Option<seq<ImportedPort>>)

  const Source: string := "nmap-import"

  function OrElse(v: Option<string>, fallback: string): string {
    if v.Some? then v.value else fallback
  }

  /** A port counts when its state is exactly "open" and it has a numeric id. */
  predicate IsOpen(p: PortBlock) {
    p.state == Some("open") && p.portId.Some?
  }

  /** The details of an open port: protocol "tcp", service "unknown", product and version "" by default. */
  function Detail(p: PortBlock): (d: ImportedPort)
    requires IsOpen(p)
    ensures d.port == p.portId.value
    ensures d.protocol == (if p.protocol.Some? then p.protocol.value else "tcp")
    ensures d.service == (if p.service.Some? then p.service.value else "unknown")
    ensures d.product == (if p.product.Some? then p.product.value else "")
    ensures d.version == (if p.version.Some? then p.version.value else "")
  {
    ImportedPort(p.portId.value, OrElse(p.protocol, "tcp"), OrElse(p.service, "unknown"),
                 OrElse(p.product, ""), OrElse(p.version, ""))
  }

  /** The details of the open ports, in block order. */
  function OpenDetails(ps: seq<PortBlock>): (r: seq<ImportedPort>)
    ensures |r| <= |ps|
    decreases |ps|
  {
    if ps == [] then []
    else
      var last := ps[|ps| - 1];
      OpenDetails(ps[..|ps| - 1]) + (if IsOpen(last) then [Detail(last)] else [])
  }

  /** The numbers of the open ports, in block order. */
  function OpenIds(ps: seq<PortBlock>): (r: seq<nat>)
    decreases |ps|
  {
    if ps == [] then []
    else
      var last := ps[|ps| - 1];
      OpenIds(ps[..|ps| - 1]) + (if IsOpen(last) then [last.portId.value] else [])
  }

  /** Each open port gives one detail with its number; the numbers are exactly the open ids. */
  lemma {:induction false} OpenDetailsIds(ps: seq<PortBlock>)
    ensures |OpenDetails(ps)| == |OpenIds(ps)|
    ensures forall k :: 0 <= k < |OpenIds(ps)| ==> OpenDetails(ps)[k].port == OpenIds(ps)[k]
    ensures forall n :: n in OpenIds(ps) <==> exists k :: 0 <= k < |ps| && IsOpen(ps[k]) && ps[k].portId.value == n
    decreases |ps|
  {
    if ps != [] {
      var init := ps[..|ps| - 1];
      OpenDetailsIds(init);
      forall n ensures n in OpenIds(ps) <==> exists k :: 0 <= k < |ps| && IsOpen(ps[k]) && ps[k].portId.value == n {
        if n in OpenIds(init) {
          var k :| 0 <= k < |init| && IsOpen(init[k]) && init[k].portId.value == n;
          assert ps[k] == init[k];
        }
        if exists k :: 0 <= k < |ps| && IsOpen(ps[k]) && ps[k].portId.value == n {
          var k :| 0 <= k < |ps| && IsOpen(ps[k]) && ps[k].portId.value == n;
          if k < |init| {
            assert init[k] == ps[k];
          }
        }
      }
    }
  }

  // ------------------------------------------------------------ numeric sort

  predicate SortedAsc(s: seq<nat>) {
    forall i, j :: 0 <= i < j < |s| ==> s[i] <= s[j]
  }

  /** Insert `x` before the first larger element. */
  function InsertAsc(x: nat, s: seq<nat>): (r: seq<nat>)
    ensures multiset(r) == multiset(s) + multiset{x}
    ensures |r| == |s| + 1
    ensures forall y :: y in r <==> y in s || y == x
    decreases |s|
  {
    if s == [] || x <= s[0] then [x] + s
    else
      assert s == [s[0]] + s[1..];
      [s[0]] + InsertAsc(x, s[1..])
  }

  /** `ports.sort((a, b) => a - b)`: ascending numeric order. */
  function SortAsc(s: seq<nat>): (r: seq<nat>)
    ensures multiset(r) == multiset(s)
    ensures |r| == |s|
    decreases |s|
  {
    if s == [] then []
    else
      assert s == s[..|s| - 1] + [s[|s| - 1]];
      InsertAsc(s[|s| - 1], SortAsc(s[..|s| - 1]))
  }

  lemma {:induction false} InsertAscSorted(x: nat, s: seq<nat>)
    requires SortedAsc(s)
    ensures SortedAsc(InsertAsc(x, s))
    decreases |s|
  {
    if s != [] && x > s[0] {
      var rest := InsertAsc(x, s[1..]);
      InsertAscSorted(x, s[1..]);
      forall k | 0 <= k < |rest| ensures s[0] <= rest[k] {
        assert rest[k] in s[1..] || rest[k] == x;
      }
    }
  }

  /** The numeric sort orders its input and keeps every element as often as it occurs. */
  lemma {:induction false} SortAscSorted(s: seq<nat>)
    ensures SortedAsc(SortAsc(s))
    decreases |s|
  {
    if s != [] {
      SortAscSorted(s[..|s| - 1]);
      InsertAscSorted(s[|s| - 1], SortAsc(s[..|s| - 1]));
    }
  }

  // ------------------------------------------------------------ hosts

  /** The address the host is filed under: IPv4 preferred, else IPv6, else none (""). */
  function AddressOf(b: HostBlock): string {
    if b.ipv4.Some? then b.ipv4.value else if b.ipv6.Some? then b.ipv6.value else ""
  }

  predicate IsDown(b: HostBlock) {
    b.status.Some? && Lower(b.status.value) == "down"
  }

  /** The host a block gives, or `None` when it is skipped. */
  function ImportHost(b: HostBlock): (r: Option<NmapHost>)
    ensures r.None? <==> IsDown(b) || AddressOf(b) == ""
    ensures r.Some? ==> r.value.source == Source && r.value.ip == AddressOf(b) != ""
  {
    if IsDown(b) || AddressOf(b) == "" then None
    else
      var details := OpenDetails(b.portBlocks);
      Some(NmapHost(
        Source,
        AddressOf(b),
        if b.mac.Some? then Some(b.mac.value.addr) else None,
        if b.mac.Some? && b.mac.value.vendor.Some? && b.mac.value.vendor.value != "" then b.mac.value.vendor else None,
        b.hostname,
        if b.osMatch.Some? then Some(b.osMatch.value[..Min(50, |b.osMatch.value|)]) else None,
        SortAsc(OpenIds(b.portBlocks)),
        if |details| > 0 then Some(details) else None))
  }

  /** The hosts of a report, in block order. */
  function ImportAll(blocks: seq<HostBlock>): (r: seq<NmapHost>)
    ensures |r| <= |blocks|
    ensures r == [] <==> forall k :: 0 <= k < |blocks| ==> IsDown(blocks[k]) || AddressOf(blocks[k]) == ""
  {
    SomesEmpty(ImportHost, blocks);
    Somes(ImportHost, blocks)
  }

  /** A block gives a host exactly when it is up and has an address, IPv4 first. */
  lemma ImportHostSkips(b: HostBlock)
    ensures ImportHost(b).None? <==> IsDown(b) || AddressOf(b) == ""
    ensures ImportHost(b).Some? ==> ImportHost(b).value.source == Source && ImportHost(b).value.ip != ""
    ensures b.ipv4.Some? && b.ipv4.value != "" && !IsDown(b) ==> ImportHost(b) != None && ImportHost(b).value.ip == b.ipv4.value
  {
  }

  /** An imported host's ports: exactly the open ones, sorted; details exactly when some port is open. */
  lemma ImportHostPorts(b: HostBlock)
    requires ImportHost(b).Some?
    ensures var h := ImportHost(b).value;
      && SortedAsc(h.ports)
      && multiset(h.ports) == multiset(OpenIds(b.portBlocks))
      && (forall n :: n in h.ports <==>
            exists k :: 0 <= k < |b.portBlocks| && IsOpen(b.portBlocks[k]) && b.portBlocks[k].portId.value == n)
      && (h.nmapData.None? <==> h.ports == [])
      && (h.nmapData.Some? ==> |h.nmapData.value| == |h.ports|)
      && (h.nmapData.Some? ==> h.nmapData.value == OpenDetails(b.portBlocks))
  {
    var h := ImportHost(b).value;
    var ids := OpenIds(b.portBlocks);
    assert h.ports == SortAsc(ids);
    SortAscSorted(ids);
    OpenDetailsIds(b.portBlocks);
    forall n ensures n in h.ports <==> n in ids {
      assert n in h.ports <==> n in multiset(h.ports);
    }
  }

  /** The OS name is the first fifty characters of the best OS match. */
  lemma ImportHostOs(b: HostBlock)
    requires ImportHost(b).Some?
    ensures var h := ImportHost(b).value;
      && (h.os.Some? <==> b.osMatch.Some?)
      && (h.os.Some? ==> |h.os.value| <= 50 && h.os.value <= b.osMatch.value)
      && (h.os.Some? && |b.osMatch.value| <= 50 ==> h.os == b.osMatch)
  {
    if b.osMatch.Some? && |b.osMatch.value| <= 50 {
      assert b.osMatch.value[..|b.osMatch.value|] == b.osMatch.value;
    }
  }

  /** Every imported host comes from the importer and has an address. */
  lemma {:induction false} ImportAllAddressed(blocks: seq<HostBlock>)
    ensures forall h :: h in ImportAll(blocks) ==> h.source == Source && h.ip != ""
    decreases |blocks|
  {
    if blocks != [] {
      ImportAllAddressed(blocks[..|blocks| - 1]);
      ImportHostSkips(blocks[|blocks| - 1]);
    }
  }

  /** A report yields no host exactly when every block is skipped. */
  lemma ImportAllEmpty(blocks: seq<HostBlock>)
    ensures (forall k :: 0 <= k < |blocks| ==> ImportHost(blocks[k]).None?) <==> ImportAll(blocks) == []
  {
    SomesEmpty(ImportHost, blocks);
  }

  /** When no block is skipped, every block gives one host. */
  lemma ImportAllKeepsAll(blocks: seq<HostBlock>)
    requires forall k :: 0 <= k < |blocks| ==> ImportHost(blocks[k]).Some?
    ensures |ImportAll(blocks)| == |blocks|
  {
    SomesAll(ImportHost, blocks);
  }

  /** The inner `<port>` loop: the open ports' numbers and details, in block order. */
  method CollectOpenPorts(ps: seq<PortBlock>) returns (ports: seq<nat>, details: seq<ImportedPort>)
    ensures ports == OpenIds(ps) && details == OpenDetails(ps)
  {
    ports := [];
    details := [];
    for i := 0 to |ps|
      invariant ports == OpenIds(ps[..i])
      invariant details == OpenDetails(ps[..i])
    {
      assert ps[..i + 1][..i] == ps[..i];
      var p := ps[i];
      if p.state == Some("open") && p.portId.Some? {
        ports := ports + [p.portId.value];
        details := details + [Detail(p)];
      }
    }
    assert ps[..|ps|] == ps;
  }

  /** The per-host part of the loop: collect the open ports and their details, then sort. */
  method ImportHostBlock(b: HostBlock) returns (host: Option<NmapHost>)
    ensures host == ImportHost(b)
  {
    if IsDown(b) {
      return None;
    }
    var ip := "";
    if b.ipv4.Some? {
      ip := b.ipv4.value;
    } else if b.ipv6.Some? {
      ip := b.ipv6.value;
    }
    if ip == "" {
      return None;
    }
    var ports, details := CollectOpenPorts(b.portBlocks);
    var mac: Option<string> := None;
    var vendor: Option<string> := None;
    if b.mac.Some? {
      mac := Some(b.mac.value.addr);
      if b.mac.value.vendor.Some? && b.mac.value.vendor.value != "" {
        vendor := b.mac.value.vendor;
      }
    }
    var os: Option<string> := None;
    if b.osMatch.Some? {
      os := Some(b.osMatch.value[..Min(50, |b.osMatch.value|)]);
    }
    assert ip == AddressOf(b);
    host := Some(NmapHost(Source, ip, mac, vendor, b.hostname, os, SortAsc(ports),
                          if |details| > 0 then Some(details) else None));
  }

  /** `parseNmapXml` from the host blocks on; no blocks give no hosts. */
  method ParseNmapXml(blocks: seq<HostBlock>) returns (hosts: seq<NmapHost>)
    ensures hosts == ImportAll(blocks)
  {
    hosts := [];
    for i := 0 to |blocks|
      invariant hosts == ImportAll(blocks[..i])
    {
      assert blocks[..i + 1][..i] == blocks[..i];
      var h := ImportHostBlock(blocks[i]);
      if h.Some? {
        hosts := hosts + [h.value];
      }
    }
    assert blocks[..|blocks|] == blocks;
  }
}
