/**
 * The renderer's network map: the graph elements `updateTopologyData` hands
 * to the graph library.  Hosts are grouped into /24 subnets by their dotted
 * address; each host becomes a node whose type comes from its device type
 * (filled in by a name/vendor heuristic when generic), whose colour and label
 * badge show its security posture; each subnet becomes a parent node and is
 * wired as a star around its gateway (or its ".1" host) or else as a path;
 * gateways are chained together.  Icons and the graph library calls are not
 * modelled.
 */
module RendererTopology {
  import opened Common
  import opened Text
  import RendererIndex

  /** `host.deepAudit`'s two counters. */
  datatype AuditCounts = AuditCounts(vulnerabilities: int, warnings: int)

  /** The parts of a host the map reads; a missing text field is "" (both are falsy). */
  datatype MapHost = MapHost(
    ip: string,
    deviceType: string,
    os: string,
    hostname: string,
    vendor: string,
    ports: seq<int>,
    deepAudit: Option<AuditCounts>)

  /** A graph element: a node (host or subnet) or an edge. */
  datatype Element =
    | Node(id: string, labelText: string, parent: Option<string>, nodeType: string, color: string)
    | Edge(id: string, source: string, target: string, color: string)

  const UnknownSubnet: string := "Unknown"
  const SubnetType: string := "subnet"
  const SubnetColor: string := "#444"
  const LinkColor: string := "#3be282"
  const ChainColor: string := "#3498db"

  // ------------------------------------------------------------ subnets

  /** `extractSubnet`: "a.b.c.0/24" for a four-part dotted address, else "Unknown". */
  function ExtractSubnet(ip: string): string {
    if ip == "" then UnknownSubnet
    else
      var parts := Split(ip, '.');
      if |parts| == 4 then parts[0] + "." + parts[1] + "." + parts[2] + ".0/24" else UnknownSubnet
  }

  /** The subnet is "Unknown" exactly when the address is missing or not four dot-separated parts. */
  lemma ExtractSubnetUnknown(ip: string)
    ensures ExtractSubnet(ip) == UnknownSubnet <==> ip == "" || |Split(ip, '.')| != 4
    ensures ExtractSubnet(ip) != UnknownSubnet ==> EndsWith(ExtractSubnet(ip), ".0/24")
  {
    if ip != "" && |Split(ip, '.')| == 4 {
      var parts := Split(ip, '.');
      var r := parts[0] + "." + parts[1] + "." + parts[2] + ".0/24";
      assert r[|r| - 5..] == ".0/24";
      assert r[|r| - 1] == '4' != UnknownSubnet[6];
    }
  }

  /** Four dot-free parts joined by dots split back into those parts. */
  lemma SplitDottedQuad(a: string, b: string, c: string, d: string)
    requires '.' !in a && '.' !in b && '.' !in c && '.' !in d
    ensures Split(a + ['.'] + (b + ['.'] + (c + ['.'] + d)), '.') == [a, b, c, d]
  {
    var cd := c + ['.'] + d;
    var bcd := b + ['.'] + cd;
    SplitNoSep(d, '.');
    SplitConcat(c, '.', d);
    SplitConcat(b, '.', cd);
    SplitConcat(a, '.', bcd);
  }

  /** A dotted quad's subnet keeps its first three parts. */
  lemma ExtractSubnetDotted(a: string, b: string, c: string, d: string)
    requires '.' !in a && '.' !in b && '.' !in c && '.' !in d
    ensures ExtractSubnet(a + "." + b + "." + c + "." + d) == a + "." + b + "." + c + ".0/24"
  {
    SplitDottedQuad(a, b, c, d);
    assert a + "." + b + "." + c + "." + d == a + ['.'] + (b + ['.'] + (c + ['.'] + d));
  }

  /** `Set.add`: a value already present is not added again. */
  function AddNew(s: seq<string>, x: string): seq<string> {
    if x in s then s else s + [x]
  }

  /** The distinct values of `xs` in first-seen order (a `Set` filled in order). */
  function Dedupe(xs: seq<string>): seq<string>
    decreases |xs|
  {
    if xs == [] then [] else AddNew(Dedupe(xs[..|xs| - 1]), xs[|xs| - 1])
  }

  /** Dedupe lists every value once and nothing else. */
  lemma {:induction false} DedupeFacts(xs: seq<string>)
    ensures NoDuplicates(Dedupe(xs))
    ensures forall x :: x in Dedupe(xs) <==> x in xs
    decreases |xs|
  {
    if xs != [] {
      var init := xs[..|xs| - 1];
      DedupeFacts(init);
      assert xs == init + [xs[|xs| - 1]];
    }
  }

  /** The subnet of each host, in order. */
  function SubnetOfEach(hosts: seq<MapHost>): (r: seq<string>)
    ensures |r| == |hosts|
    ensures forall k :: 0 <= k < |hosts| ==> r[k] == ExtractSubnet(hosts[k].ip)
  {
    seq(|hosts|, k requires 0 <= k < |hosts| => ExtractSubnet(hosts[k].ip))
  }

  /** The `subnets` Set: each host's subnet, first-seen order. */
  function Subnets(hosts: seq<MapHost>): seq<string> {
    Dedupe(SubnetOfEach(hosts))
  }

  /** One entry per distinct subnet of the hosts. */
  lemma SubnetsFacts(hosts: seq<MapHost>)
    ensures NoDuplicates(Subnets(hosts))
    ensures forall s :: s in Subnets(hosts) <==> exists k :: 0 <= k < |hosts| && ExtractSubnet(hosts[k].ip) == s
  {
    DedupeFacts(SubnetOfEach(hosts));
  }

  // ------------------------------------------------------------ gateways

  /** A host is a gateway when its device type mentions "router" in any letter case. */
  predicate IsRouterHost(h: MapHost) {
    h.deviceType != "" && Contains(Lower(h.deviceType), "router")
  }

  /** The IPs of the router hosts, in order. */
  function RouterIps(hosts: seq<MapHost>): seq<string>
    decreases |hosts|
  {
    if hosts == [] then []
    else
      var last := hosts[|hosts| - 1];
      RouterIps(hosts[..|hosts| - 1]) + (if IsRouterHost(last) then [last.ip] else [])
  }

  /** The `gateways` Set, in first-seen order (the order of `Array.from`). */
  function Gateways(hosts: seq<MapHost>): seq<string> {
    Dedupe(RouterIps(hosts))
  }

  lemma {:induction false} RouterIpsMembers(hosts: seq<MapHost>)
    ensures forall ip :: ip in RouterIps(hosts) <==> exists k :: 0 <= k < |hosts| && IsRouterHost(hosts[k]) && hosts[k].ip == ip
    decreases |hosts|
  {
    if hosts != [] {
      var init := hosts[..|hosts| - 1];
      RouterIpsMembers(init);
      assert forall k :: 0 <= k < |init| ==> init[k] == hosts[k];
      forall ip | exists k :: 0 <= k < |hosts| && IsRouterHost(hosts[k]) && hosts[k].ip == ip
        ensures ip in RouterIps(hosts)
      {
        var k :| 0 <= k < |hosts| && IsRouterHost(hosts[k]) && hosts[k].ip == ip;
        if k < |init| {
          assert IsRouterHost(init[k]) && init[k].ip == ip;
        }
      }
    }
  }

  /** An IP is a gateway exactly when some host with that IP is a router; each is listed once. */
  lemma GatewaysFacts(hosts: seq<MapHost>)
    ensures NoDuplicates(Gateways(hosts))
    ensures forall ip :: ip in Gateways(hosts) <==> exists k :: 0 <= k < |hosts| && IsRouterHost(hosts[k]) && hosts[k].ip == ip
  {
    DedupeFacts(RouterIps(hosts));
    RouterIpsMembers(hosts);
  }

  // ------------------------------------------------------------ node type

  /** The device type is blank or generic. */
  predicate Generic(dt: string) {
    dt == "" || dt == "general purpose" || Contains(dt, "general purpose")
  }

  /**
   * The heuristic for a blank or generic device type: a suffix guessed from
   * the lower-cased hostname, OS and vendor, first matching group wins.
   */
  function Heuristic(dt: string, os: string, hn: string, vendor: string): (r: string)
    ensures dt <= r
    ensures !Generic(dt) ==> r == dt
    ensures r == dt || r[|dt|..] in {" phone", " printer", " router", " media", " storage", " game console", " endpoint"}
  {
    if !Generic(dt) then dt
    else if Contains(hn, "iphone") || Contains(hn, "ipad") || Contains(os, "ios") || Contains(vendor, "apple") then
      dt + " phone"
    else if Contains(hn, "printer") || Contains(vendor, "hp") || Contains(vendor, "epson") || Contains(vendor, "canon") then
      dt + " printer"
    else if Contains(os, "routeros") || Contains(vendor, "mikrotik") || Contains(vendor, "ubiquiti")
         || Contains(vendor, "netgear") || Contains(vendor, "cisco") then
      dt + " router"
    else if Contains(hn, "tv") || Contains(hn, "chromecast") || Contains(vendor, "roku") || Contains(os, "tvos")
         || Contains(vendor, "google") || Contains(hn, "media") || Contains(hn, "osmc") then
      dt + " media"
    else if Contains(vendor, "synology") || Contains(hn, "nas") || Contains(hn, "unraid") then
      dt + " storage"
    else if Contains(vendor, "nintendo") || Contains(vendor, "sony") || Contains(vendor, "microsoft") then
      (if Contains(vendor, "nintendo") || Contains(vendor, "sony") then dt + " game console" else dt)
    else if Contains(hn, "rpi") || Contains(hn, "raspberry") then dt + " endpoint"
    else dt
  }

  /** The heuristic only ever appends to a generic type and leaves a specific one alone. */
  lemma HeuristicExtends(dt: string, os: string, hn: string, vendor: string)
    ensures dt <= Heuristic(dt, os, hn, vendor)
    ensures !Generic(dt) ==> Heuristic(dt, os, hn, vendor) == dt
    ensures Generic(dt) && Contains(vendor, "apple") ==> Heuristic(dt, os, hn, vendor) == dt + " phone"
  {
  }

  /** The type string the node type is read from. */
  function DerivedType(h: MapHost): string {
    Heuristic(Lower(h.deviceType), Lower(h.os), Lower(h.hostname), Lower(h.vendor))
  }

  /** The first matching type, routers (by gateway IP or type text) first; "endpoint" otherwise. */
  function NodeType(isGateway: bool, dt: string): (r: string)
    ensures r in TypeOrder
    ensures isGateway ==> r == "router"
  {
    if isGateway || Contains(dt, "router") then "router"
    else if Contains(dt, "switch") then "switch"
    else if Contains(dt, "phone") || Contains(dt, "mobile") then "phone"
    else if Contains(dt, "printer") then "printer"
    else if Contains(dt, "wap") || Contains(dt, "wireless") || Contains(dt, "access point") then "wap"
    else if Contains(dt, "game console") then "game-console"
    else if Contains(dt, "media device") || Contains(dt, "tv") then "media"
    else if Contains(dt, "storage") || Contains(dt, "nas") then "storage"
    else "endpoint"
  }

  /** The node types in the order the source tries them. */
  const TypeOrder: seq<string> :=
    ["router", "switch", "phone", "printer", "wap", "game-console", "media", "storage", "endpoint"]

  /** Whether the type text selects the `k`-th type of `TypeOrder` on its own. */
  predicate Selects(isGateway: bool, dt: string, k: nat) {
    if k == 0 then isGateway || Contains(dt, "router")
    else if k == 1 then Contains(dt, "switch")
    else if k == 2 then Contains(dt, "phone") || Contains(dt, "mobile")
    else if k == 3 then Contains(dt, "printer")
    else if k == 4 then Contains(dt, "wap") || Contains(dt, "wireless") || Contains(dt, "access point")
    else if k == 5 then Contains(dt, "game console")
    else if k == 6 then Contains(dt, "media device") || Contains(dt, "tv")
    else if k == 7 then Contains(dt, "storage") || Contains(dt, "nas")
    else true
  }

  /** The position in `TypeOrder` of the type `NodeType` picks. */
  function FirstSelected(isGateway: bool, dt: string): (k: nat)
    ensures k < |TypeOrder| && NodeType(isGateway, dt) == TypeOrder[k] && Selects(isGateway, dt, k)
  {
    if Selects(isGateway, dt, 0) then 0
    else if Selects(isGateway, dt, 1) then 1
    else if Selects(isGateway, dt, 2) then 2
    else if Selects(isGateway, dt, 3) then 3
    else if Selects(isGateway, dt, 4) then 4
    else if Selects(isGateway, dt, 5) then 5
    else if Selects(isGateway, dt, 6) then 6
    else if Selects(isGateway, dt, 7) then 7
    else 8
  }

  /** The node type is the first entry of `TypeOrder` whose test the type text passes. */
  lemma NodeTypeFirstMatch(isGateway: bool, dt: string, k: nat)
    requires k < |TypeOrder|
    ensures NodeType(isGateway, dt) == TypeOrder[k] <==>
      Selects(isGateway, dt, k) && forall j :: 0 <= j < k ==> !Selects(isGateway, dt, j)
  {
    if NodeType(isGateway, dt) == TypeOrder[k] {
      forall j | 0 <= j < k ensures !Selects(isGateway, dt, j) {
        assert TypeOrder[j] != TypeOrder[k];
      }
    } else if Selects(isGateway, dt, k) {
      var j := FirstSelected(isGateway, dt);
      assert j < k && Selects(isGateway, dt, j);
    }
  }

  /** The border colour of each node type. */
  function TypeColor(t: string): string {
    if t == "router" then "#3498db"
    else if t == "switch" then "#e67e22"
    else if t == "phone" then "#1abc9c"
    else if t == "printer" then "#95a5a6"
    else if t == "wap" then "#f1c40f"
    else if t == "game-console" then "#e74c3c"
    else if t == "media" then "#fd79a8"
    else if t == "storage" then "#34495e"
    else "#9b59b6"
  }

  // ------------------------------------------------------------ posture and label

  datatype Posture = Clean | Warning | Danger

  /** Audit counters first (critical, then warnings), else the open ports; no ports, no badge. */
  function HostPosture(h: MapHost): Posture {
    if h.deepAudit.Some? && h.deepAudit.value.vulnerabilities > 0 then Danger
    else if h.deepAudit.Some? && h.deepAudit.value.warnings > 0 then Warning
    else if |h.ports| > 0 then
      if RendererIndex.HasAny(h.ports, RendererIndex.RiskyPorts) then Danger
      else if RendererIndex.HasAny(h.ports, RendererIndex.ExposedPorts) then Warning
      else Clean
    else Clean
  }

  /** For a host without a deep audit the map's posture is the host card's badge class. */
  lemma PostureMatchesCard(h: MapHost)
    requires h.deepAudit.None?
    ensures var card := RendererIndex.SecurityBadge(RendererIndex.CardHost(h.ip, h.ports, None, false));
      && (HostPosture(h) == Danger <==> card.badgeClass == "danger")
      && (HostPosture(h) == Warning <==> card.badgeClass == "warning")
  {
  }

  /** Red for danger, orange for a warning, else the type's own colour. */
  function BorderColor(t: string, p: Posture): string {
    if p == Danger then "#eb5e5e" else if p == Warning then "#f39c12" else TypeColor(t)
  }

  /** The badge strings as the file spells them: the emoji's UTF-8 bytes read back as Windows-1252. */
  const DangerBadgeAsWritten: string := "\U{F0}\U{178}\U{203A}\U{2018} "
  const WarningBadgeAsWritten: string := "\U{E2}\U{161}\U{A0}\U{EF}\U{B8} "

  /** The label prefix as written in the source. */
  function BadgeAsWritten(p: Posture): (r: string)
    ensures p == Clean <==> r == ""
  {
    match p
    case Danger => DangerBadgeAsWritten
    case Warning => WarningBadgeAsWritten
    case Clean => ""
  }

  /** The label prefix as intended: the stop sign or warning sign of the host card, then a space. */
  function Badge(p: Posture): (r: string)
    ensures p == Clean <==> r == ""
  {
    match p
    case Danger => RendererIndex.StopIcon + " "
    case Warning => RendererIndex.WarnIcon + " "
    case Clean => ""
  }

  /** For a host without a deep audit, a badged label carries the same icon as the host card. */
  lemma BadgeMatchesCard(h: MapHost)
    requires h.deepAudit.None? && HostPosture(h) != Clean
    ensures Badge(HostPosture(h))
      == RendererIndex.SecurityBadge(RendererIndex.CardHost(h.ip, h.ports, None, false)).icon + " "
  {
  }

  /** The UTF-8 encoding of one character. */
  function Utf8(c: char): (bytes: seq<nat>)
    ensures 1 <= |bytes| <= 4
    ensures forall k :: 0 <= k < |bytes| ==> bytes[k] < 256
  {
    var n := c as int;
    if n < 0x80 then [n]
    else if n < 0x800 then [0xC0 + n / 0x40, 0x80 + n % 0x40]
    else if n < 0x10000 then [0xE0 + n / 0x1000, 0x80 + (n / 0x40) % 0x40, 0x80 + n % 0x40]
    else [0xF0 + n / 0x40000, 0x80 + (n / 0x1000) % 0x40, 0x80 + (n / 0x40) % 0x40, 0x80 + n % 0x40]
  }

  function Utf8String(s: string): (bytes: seq<nat>)
    ensures forall k :: 0 <= k < |bytes| ==> bytes[k] < 256
    decreases |s|
  {
    if s == [] then [] else Utf8String(s[..|s| - 1]) + Utf8(s[|s| - 1])
  }

  /** Windows-1252: the 0x80-0x9F block differs from Latin-1, five bytes there are unassigned. */
  function Cp1252(b: nat): (c: Option<char>)
    requires b < 256
  {
    if b < 0x80 || b >= 0xA0 then Some(b as char)
    else
      var table: seq<int> := [
        0x20AC, -1, 0x201A, 0x0192, 0x201E, 0x2026, 0x2020, 0x2021,
        0x02C6, 0x2030, 0x0160, 0x2039, 0x0152, -1, 0x017D, -1,
        -1, 0x2018, 0x2019, 0x201C, 0x201D, 0x2022, 0x2013, 0x2014,
        0x02DC, 0x2122, 0x0161, 0x203A, 0x0153, -1, 0x017E, 0x0178];
      var u := table[b - 0x80];
      if u < 0 then None else Some(u as char)
  }

  /** Bytes read as Windows-1252, unassigned bytes dropped. */
  function Cp1252Decode(bytes: seq<nat>): string
    requires forall k :: 0 <= k < |bytes| ==> bytes[k] < 256
    decreases |bytes|
  {
    if bytes == [] then []
    else
      var c := Cp1252(bytes[|bytes| - 1]);
      Cp1252Decode(bytes[..|bytes| - 1]) + (if c.Some? then [c.value] else [])
  }

  lemma Utf8Step(s: string, c: char)
    ensures Utf8String(s + [c]) == Utf8String(s) + Utf8(c)
  {
    assert (s + [c])[..|s|] == s;
  }

  lemma Cp1252Step(bytes: seq<nat>, x: nat)
    requires forall k :: 0 <= k < |bytes| ==> bytes[k] < 256
    requires x < 256
    ensures Cp1252Decode(bytes + [x]) == Cp1252Decode(bytes) + (if Cp1252(x).Some? then [Cp1252(x).value] else [])
  {
    assert (bytes + [x])[..|bytes|] == bytes;
  }

  lemma Utf8OfStop()
    ensures Utf8String(RendererIndex.StopIcon + " ") == [0xF0, 0x9F, 0x9B, 0x91, 0x20]
  {
    assert Utf8('\U{1F6D1}') == [0xF0, 0x9F, 0x9B, 0x91];
    Utf8Step([], '\U{1F6D1}');
    Utf8Step(['\U{1F6D1}'], ' ');
    assert [] + ['\U{1F6D1}'] == ['\U{1F6D1}'] && ['\U{1F6D1}'] + [' '] == RendererIndex.StopIcon + " ";
  }

  lemma Utf8OfWarningSign()
    ensures Utf8('\U{26A0}') == [0xE2, 0x9A, 0xA0]
  {
  }

  lemma Utf8OfVariationSelector()
    ensures Utf8('\U{FE0F}') == [0xEF, 0xB8, 0x8F]
  {
  }

  lemma Utf8OfWarn()
    ensures Utf8String(RendererIndex.WarnIcon + " ") == [0xE2, 0x9A, 0xA0, 0xEF, 0xB8, 0x8F, 0x20]
  {
    Utf8OfWarningSign();
    Utf8OfVariationSelector();
    var s1 := ['\U{26A0}'];
    var s2 := s1 + ['\U{FE0F}'];
    var s3 := s2 + [' '];
    Utf8Step([], '\U{26A0}');
    Utf8Step(s1, '\U{FE0F}');
    Utf8Step(s2, ' ');
    assert [] + s1 == s1 && s3 == RendererIndex.WarnIcon + " ";
  }

  lemma Cp1252OfBadgeBytes()
    ensures Cp1252(0xF0) == Some('\U{F0}') && Cp1252(0x9F) == Some('\U{178}') && Cp1252(0x9B) == Some('\U{203A}')
    ensures Cp1252(0x91) == Some('\U{2018}') && Cp1252(0x20) == Some(' ') && Cp1252(0xE2) == Some('\U{E2}')
    ensures Cp1252(0x9A) == Some('\U{161}') && Cp1252(0xA0) == Some('\U{A0}') && Cp1252(0xEF) == Some('\U{EF}')
    ensures Cp1252(0xB8) == Some('\U{B8}') && Cp1252(0x8F) == None
  {
  }

  lemma Cp1252Known(bytes: seq<nat>, x: nat, c: char)
    requires forall k :: 0 <= k < |bytes| ==> bytes[k] < 256
    requires x < 256 && Cp1252(x) == Some(c)
    ensures Cp1252Decode(bytes + [x]) == Cp1252Decode(bytes) + [c]
  {
    Cp1252Step(bytes, x);
  }

  lemma DecodeStopHead()
    ensures Cp1252Decode([0xF0, 0x9F, 0x9B]) == "\U{F0}\U{178}\U{203A}"
  {
    Cp1252OfBadgeBytes();
    var b0: seq<nat> := [];
    var b1 := b0 + [0xF0];
    var b2 := b1 + [0x9F];
    Cp1252Known(b0, 0xF0, '\U{F0}');
    Cp1252Known(b1, 0x9F, '\U{178}');
    Cp1252Known(b2, 0x9B, '\U{203A}');
    assert b2 + [0x9B] == [0xF0, 0x9F, 0x9B];
  }

  lemma DecodeStop()
    ensures Cp1252Decode([0xF0, 0x9F, 0x9B, 0x91, 0x20]) == DangerBadgeAsWritten
  {
    Cp1252OfBadgeBytes();
    DecodeStopHead();
    var b3: seq<nat> := [0xF0, 0x9F, 0x9B];
    var b4 := b3 + [0x91];
    Cp1252Known(b3, 0x91, '\U{2018}');
    Cp1252Known(b4, 0x20, ' ');
    assert b4 + [0x20] == [0xF0, 0x9F, 0x9B, 0x91, 0x20];
  }

  lemma DecodeWarnHead()
    ensures Cp1252Decode([0xE2, 0x9A, 0xA0]) == "\U{E2}\U{161}\U{A0}"
  {
    Cp1252OfBadgeBytes();
    var b0: seq<nat> := [];
    var b1 := b0 + [0xE2];
    var b2 := b1 + [0x9A];
    Cp1252Known(b0, 0xE2, '\U{E2}');
    Cp1252Known(b1, 0x9A, '\U{161}');
    Cp1252Known(b2, 0xA0, '\U{A0}');
    assert b2 + [0xA0] == [0xE2, 0x9A, 0xA0];
  }

  lemma DecodeWarnMiddle()
    ensures Cp1252Decode([0xE2, 0x9A, 0xA0, 0xEF, 0xB8]) == "\U{E2}\U{161}\U{A0}\U{EF}\U{B8}"
  {
    Cp1252OfBadgeBytes();
    DecodeWarnHead();
    var b3: seq<nat> := [0xE2, 0x9A, 0xA0];
    var b4 := b3 + [0xEF];
    Cp1252Known(b3, 0xEF, '\U{EF}');
    Cp1252Known(b4, 0xB8, '\U{B8}');
    assert b4 + [0xB8] == [0xE2, 0x9A, 0xA0, 0xEF, 0xB8];
  }

  lemma DecodeWarn()
    ensures Cp1252Decode([0xE2, 0x9A, 0xA0, 0xEF, 0xB8, 0x8F, 0x20]) == WarningBadgeAsWritten
  {
    Cp1252OfBadgeBytes();
    DecodeWarnMiddle();
    var b5: seq<nat> := [0xE2, 0x9A, 0xA0, 0xEF, 0xB8];
    var b6 := b5 + [0x8F];
    Cp1252Step(b5, 0x8F);
    Cp1252Known(b6, 0x20, ' ');
    assert b6 + [0x20] == [0xE2, 0x9A, 0xA0, 0xEF, 0xB8, 0x8F, 0x20];
  }

  /**
   * The badges as written are not the intended emoji but their UTF-8 bytes
   * misread as Windows-1252: a danger or warning host's label starts with
   * four or five stray Latin characters instead of the sign.
   */
  lemma BadgeMisdecoded(p: Posture)
    requires p != Clean
    ensures BadgeAsWritten(p) != Badge(p)
    ensures BadgeAsWritten(p) == Cp1252Decode(Utf8String(Badge(p)))
  {
    if p == Danger {
      Utf8OfStop();
      DecodeStop();
      assert |BadgeAsWritten(p)| == 5 != |Badge(p)|;
    } else {
      Utf8OfWarn();
      DecodeWarn();
      assert |BadgeAsWritten(p)| == 6 != |Badge(p)|;
    }
  }

  /** The hostname unless it is missing or "Unknown", else the IP. */
  function BaseLabel(h: MapHost): string {
    if h.hostname != "" && h.hostname != "Unknown" then h.hostname else h.ip
  }

  /**
   * A host's node as the map draws it: id = IP, parent = its subnet, the
   * badge as written before the base label.
   */
  function HostNode(h: MapHost, gateways: seq<string>): (n: Element)
    ensures n.Node? && n.id == h.ip && n.parent == Some(ExtractSubnet(h.ip))
    ensures n.labelText == BadgeAsWritten(HostPosture(h)) + BaseLabel(h)
    ensures n.nodeType in TypeOrder
    ensures n.nodeType == NodeType(h.ip in gateways, DerivedType(h))
    ensures n.color == (if HostPosture(h) == Danger then "#eb5e5e"
                        else if HostPosture(h) == Warning then "#f39c12"
                        else TypeColor(n.nodeType))
  {
    var t := NodeType(h.ip in gateways, DerivedType(h));
    var p := HostPosture(h);
    Node(h.ip, BadgeAsWritten(p) + BaseLabel(h), Some(ExtractSubnet(h.ip)), t, BorderColor(t, p))
  }

  /** A host's node with the intended badge: the host card's sign before the base label. */
  function IntendedHostNode(h: MapHost, gateways: seq<string>): (n: Element)
    ensures n.Node? && n.id == h.ip && n.parent == Some(ExtractSubnet(h.ip))
    ensures n.labelText == Badge(HostPosture(h)) + BaseLabel(h)
    ensures n.nodeType in TypeOrder
    ensures n.nodeType == NodeType(h.ip in gateways, DerivedType(h))
    ensures n.color == (if HostPosture(h) == Danger then "#eb5e5e"
                        else if HostPosture(h) == Warning then "#f39c12"
                        else TypeColor(n.nodeType))
  {
    var t := NodeType(h.ip in gateways, DerivedType(h));
    var p := HostPosture(h);
    Node(h.ip, Badge(p) + BaseLabel(h), Some(ExtractSubnet(h.ip)), t, BorderColor(t, p))
  }

  /**
   * The drawn node and the intended one differ only in the label, and only for
   * a flagged host: a clean host's label is its base label in both.
   */
  lemma HostNodeOnlyLabelDiffers(h: MapHost, gateways: seq<string>)
    ensures var drawn, intended := HostNode(h, gateways), IntendedHostNode(h, gateways);
      && drawn.id == intended.id && drawn.parent == intended.parent
      && drawn.nodeType == intended.nodeType && drawn.color == intended.color
    ensures HostPosture(h) == Clean <==> HostNode(h, gateways) == IntendedHostNode(h, gateways)
  {
    var p := HostPosture(h);
    if p != Clean {
      BadgeMisdecoded(p);
    }
  }

  /** A router host is drawn as a router whatever its other traits, in the router colour unless flagged. */
  lemma RouterHostIsRouter(hosts: seq<MapHost>, k: nat)
    requires k < |hosts| && IsRouterHost(hosts[k])
    ensures HostNode(hosts[k], Gateways(hosts)).nodeType == "router"
    ensures HostPosture(hosts[k]) == Clean ==> HostNode(hosts[k], Gateways(hosts)).color == ChainColor
  {
    GatewaysFacts(hosts);
    assert hosts[k].ip in Gateways(hosts);
  }

  // ------------------------------------------------------------ elements

  /** The host nodes, in host order. */
  function HostNodes(hosts: seq<MapHost>, gateways: seq<string>): (r: seq<Element>)
  {
    MapSeq(h => HostNode(h, gateways), hosts)
  }

  /** One node per host: the k-th node is the k-th host's. */
  lemma HostNodesAt(hosts: seq<MapHost>, gateways: seq<string>, k: nat)
    requires k < |hosts|
    ensures |HostNodes(hosts, gateways)| == |hosts|
    ensures HostNodes(hosts, gateways)[k] == HostNode(hosts[k], gateways)
  {
    MapSeqAt(h => HostNode(h, gateways), hosts, k);
  }

  function SubnetNode(sub: string): Element {
    Node(sub, sub, None, SubnetType, SubnetColor)
  }

  /** One parent node per subnet, in order. */
  function SubnetNodes(subs: seq<string>): (r: seq<Element>) {
    MapSeq(SubnetNode, subs)
  }

  /** The k-th subnet node is the k-th subnet's. */
  lemma SubnetNodesAt(subs: seq<string>, k: nat)
    requires k < |subs|
    ensures |SubnetNodes(subs)| == |subs|
    ensures SubnetNodes(subs)[k] == SubnetNode(subs[k])
  {
    MapSeqAt(SubnetNode, subs, k);
  }

  /** An edge `e-<source>-<target>`. */
  function EdgeOf(source: string, target: string, color: string): Element {
    Edge("e-" + source + "-" + target, source, target, color)
  }

  /** The IPs of the hosts in subnet `sub`, in host order (`hosts.filter`). */
  function SubnetIps(hosts: seq<MapHost>, sub: string): seq<string>
    decreases |hosts|
  {
    if hosts == [] then []
    else
      var last := hosts[|hosts| - 1];
      SubnetIps(hosts[..|hosts| - 1], sub) + (if ExtractSubnet(last.ip) == sub then [last.ip] else [])
  }

  /** The members of a subnet are the hosts' IPs that fall in it. */
  lemma {:induction false} SubnetIpsMembers(hosts: seq<MapHost>, sub: string)
    ensures forall ip :: ip in SubnetIps(hosts, sub) <==> ExtractSubnet(ip) == sub && exists k :: 0 <= k < |hosts| && hosts[k].ip == ip
    decreases |hosts|
  {
    if hosts != [] {
      var init := hosts[..|hosts| - 1];
      SubnetIpsMembers(init, sub);
      assert forall k :: 0 <= k < |init| ==> init[k] == hosts[k];
      forall ip | ExtractSubnet(ip) == sub && exists k :: 0 <= k < |hosts| && hosts[k].ip == ip
        ensures ip in SubnetIps(hosts, sub)
      {
        var k :| 0 <= k < |hosts| && hosts[k].ip == ip;
        if k < |init| {
          assert init[k].ip == ip;
        }
      }
    }
  }

  /** No two hosts share an IP. */
  predicate DistinctIps(hosts: seq<MapHost>) {
    forall i, j :: 0 <= i < j < |hosts| ==> hosts[i].ip != hosts[j].ip
  }

  /** With distinct host IPs each member of a subnet is listed once. */
  lemma {:induction false} SubnetIpsDistinct(hosts: seq<MapHost>, sub: string)
    requires DistinctIps(hosts)
    ensures NoDuplicates(SubnetIps(hosts, sub))
    decreases |hosts|
  {
    if hosts != [] {
      var init := hosts[..|hosts| - 1];
      var last := hosts[|hosts| - 1];
      assert DistinctIps(init);
      SubnetIpsDistinct(init, sub);
      if ExtractSubnet(last.ip) == sub {
        SubnetIpsMembers(init, sub);
        assert last.ip !in SubnetIps(init, sub);
      }
    }
  }

  /** `find(h => gateways.has(h.ip))?.ip`: the first member that is a gateway. */
  function FirstGateway(ips: seq<string>, gateways: seq<string>): (r: Option<string>)
    ensures r.Some? ==> r.value in ips && r.value in gateways
    ensures r.None? ==> forall ip :: ip in ips ==> ip !in gateways
    decreases |ips|
  {
    if ips == [] then None
    else if ips[0] in gateways then Some(ips[0])
    else FirstGateway(ips[1..], gateways)
  }

  /** `s.replace(pat, rep)` with a string pattern: only the first occurrence is replaced. */
  function ReplaceFirst(s: string, pat: string, rep: string): string
    requires pat != []
    decreases |s|
  {
    if pat <= s then rep + s[|pat|..]
    else if s == [] then []
    else [s[0]] + ReplaceFirst(s[1..], pat, rep)
  }

  lemma {:induction false} ReplaceFirstSkips(x: string, y: string, pat: string, rep: string)
    requires pat != []
    requires forall i :: 0 <= i < |x| ==> !(pat <= (x + y)[i..])
    ensures ReplaceFirst(x + y, pat, rep) == x + ReplaceFirst(y, pat, rep)
    decreases |x|
  {
    if x != [] {
      assert !(pat <= (x + y)[0..]);
      assert (x + y)[1..] == x[1..] + y;
      forall i | 0 <= i < |x[1..]| ensures !(pat <= (x[1..] + y)[i..]) {
        assert (x[1..] + y)[i..] == (x + y)[i + 1..];
      }
      ReplaceFirstSkips(x[1..], y, pat, rep);
    }
  }

  /** The conventional gateway address of a subnet: "0/24" replaced by "1". */
  function DefaultGateway(sub: string): string {
    ReplaceFirst(sub, "0/24", "1")
  }

  /** For a subnet "a.b.c.0/24" built from slash-free parts the default gateway is "a.b.c.1". */
  lemma DefaultGatewayOf(prefix: string)
    requires '/' !in prefix
    ensures DefaultGateway(prefix + ".0/24") == prefix + ".1"
  {
    var x := prefix + ".";
    assert prefix + ".0/24" == x + "0/24";
    forall i | 0 <= i < |x| ensures !("0/24" <= (x + "0/24")[i..]) {
      var t := (x + "0/24")[i..];
      if i + 1 < |prefix| {
        assert t[1] == prefix[i + 1];
      } else if i + 1 == |prefix| {
        assert t[1] == '.';
      } else {
        assert t[0] == '.';
      }
    }
    ReplaceFirstSkips(x, "0/24", "0/24", "1");
    assert "0/24" <= "0/24";
  }

  /** Edges from every member other than `center` to `center`, in order. */
  function Star(ips: seq<string>, center: string): seq<Element>
    decreases |ips|
  {
    if ips == [] then []
    else
      var last := ips[|ips| - 1];
      Star(ips[..|ips| - 1], center) + (if last != center then [EdgeOf(last, center, LinkColor)] else [])
  }

  /** A star has one edge per other member, each from that member to the center. */
  lemma {:induction false} StarFacts(ips: seq<string>, center: string)
    ensures forall e :: e in Star(ips, center) ==> e.Edge? && e.target == center && e.source in ips && e.source != center
    ensures NoDuplicates(ips) && center in ips ==> |Star(ips, center)| == |ips| - 1
    ensures center !in ips ==> |Star(ips, center)| == |ips|
    decreases |ips|
  {
    if ips != [] {
      var init := ips[..|ips| - 1];
      StarFacts(init, center);
      assert ips == init + [ips[|ips| - 1]];
      if NoDuplicates(ips) && center in ips {
        assert NoDuplicates(init);
        if ips[|ips| - 1] != center {
          assert center in init;
        } else {
          assert center !in init;
        }
      }
    }
  }

  /** Edges between consecutive members. */
  function Path(ips: seq<string>, color: string): (r: seq<Element>)
    ensures |ips| > 0 ==> |r| == |ips| - 1
    ensures |ips| == 0 ==> r == []
    ensures forall k :: 0 <= k < |r| ==> r[k] == EdgeOf(ips[k], ips[k + 1], color)
  {
    if |ips| == 0 then []
    else seq(|ips| - 1, k requires 0 <= k < |ips| - 1 => EdgeOf(ips[k], ips[k + 1], color))
  }

  /** A subnet's edges: a star around its first gateway, else around its ".1" host, else a path. */
  function SubnetEdges(hosts: seq<MapHost>, gateways: seq<string>, sub: string): seq<Element> {
    var ips := SubnetIps(hosts, sub);
    var center := FirstGateway(ips, gateways);
    var gw := DefaultGateway(sub);
    if center.Some? && center.value != "" then Star(ips, center.value)
    else if gw in ips then Star(ips, gw)
    else Path(ips, LinkColor)
  }

  /** With distinct IPs a subnet of k hosts gets k-1 edges, whichever shape it takes. */
  lemma SubnetEdgeCount(hosts: seq<MapHost>, gateways: seq<string>, sub: string)
    requires DistinctIps(hosts)
    requires sub in Subnets(hosts)
    ensures |SubnetIps(hosts, sub)| >= 1
    ensures |SubnetEdges(hosts, gateways, sub)| == |SubnetIps(hosts, sub)| - 1
  {
    var ips := SubnetIps(hosts, sub);
    SubnetsFacts(hosts);
    SubnetIpsMembers(hosts, sub);
    SubnetIpsDistinct(hosts, sub);
    var k :| 0 <= k < |hosts| && ExtractSubnet(hosts[k].ip) == sub;
    assert hosts[k].ip in ips;
    var center := FirstGateway(ips, gateways);
    if center.Some? && center.value != "" {
      StarFacts(ips, center.value);
    } else if DefaultGateway(sub) in ips {
      StarFacts(ips, DefaultGateway(sub));
    }
  }

  /** With a gateway in the subnet, every edge of the subnet points at its first gateway. */
  lemma GatewayIsHub(hosts: seq<MapHost>, gateways: seq<string>, sub: string, e: Element)
    requires e in SubnetEdges(hosts, gateways, sub)
    requires FirstGateway(SubnetIps(hosts, sub), gateways).Some?
    requires FirstGateway(SubnetIps(hosts, sub), gateways).value != ""
    ensures e.Edge? && e.target == FirstGateway(SubnetIps(hosts, sub), gateways).value
    ensures e.source in SubnetIps(hosts, sub) && e.source != e.target
  {
    StarFacts(SubnetIps(hosts, sub), FirstGateway(SubnetIps(hosts, sub), gateways).value);
  }

  /** The edges of every subnet, subnet by subnet. */
  function AllSubnetEdges(hosts: seq<MapHost>, gateways: seq<string>, subs: seq<string>): seq<Element>
    decreases |subs|
  {
    if subs == [] then []
    else AllSubnetEdges(hosts, gateways, subs[..|subs| - 1]) + SubnetEdges(hosts, gateways, subs[|subs| - 1])
  }

  /** `updateTopologyData`'s element list: host nodes, subnet nodes, subnet edges, then the gateway chain. */
  function Elements(hosts: seq<MapHost>): seq<Element> {
    NodeElements(hosts) + EdgeElements(hosts)
  }

  /** The nodes: one per host, then one per subnet. */
  function NodeElements(hosts: seq<MapHost>): seq<Element> {
    HostNodes(hosts, Gateways(hosts)) + SubnetNodes(Subnets(hosts))
  }

  /** The edges: each subnet's, then the gateway chain. */
  function EdgeElements(hosts: seq<MapHost>): seq<Element> {
    var gateways := Gateways(hosts);
    AllSubnetEdges(hosts, gateways, Subnets(hosts)) + Path(gateways, ChainColor)
  }

  /** The list opens with one node per host, in host order. */
  lemma ElementsHostNode(hosts: seq<MapHost>, k: nat)
    requires k < |hosts|
    ensures k < |Elements(hosts)| && Elements(hosts)[k] == HostNode(hosts[k], Gateways(hosts))
  {
    var a := HostNodes(hosts, Gateways(hosts));
    var b := SubnetNodes(Subnets(hosts));
    HostNodesAt(hosts, Gateways(hosts), k);
    assert Elements(hosts)[k] == NodeElements(hosts)[k] == (a + b)[k] == a[k];
  }

  /** After the host nodes comes one node per subnet, in first-seen order. */
  lemma ElementsSubnetNode(hosts: seq<MapHost>, k: nat)
    requires k < |Subnets(hosts)|
    ensures |hosts| + k < |Elements(hosts)| && Elements(hosts)[|hosts| + k] == SubnetNode(Subnets(hosts)[k])
  {
    var a := HostNodes(hosts, Gateways(hosts));
    var b := SubnetNodes(Subnets(hosts));
    SubnetNodesAt(Subnets(hosts), k);
    AppendAt(a, b, EdgeElements(hosts), k);
  }

  lemma AppendAt<T>(a: seq<T>, b: seq<T>, c: seq<T>, k: nat)
    requires k < |b|
    ensures (a + b + c)[|a| + k] == b[k]
  {
  }


  /** g gateways are chained by g-1 edges, each from one gateway to the next seen. */
  lemma GatewayChain(hosts: seq<MapHost>)
    requires |Gateways(hosts)| > 0
    ensures var chain := Path(Gateways(hosts), ChainColor);
      && |chain| == |Gateways(hosts)| - 1
      && forall k :: 0 <= k < |chain| ==> chain[k].source == Gateways(hosts)[k] && chain[k].target == Gateways(hosts)[k + 1]
  {
  }

  // ------------------------------------------------------------ the builder

  lemma DedupeSnoc(xs: seq<string>, x: string)
    ensures Dedupe(xs + [x]) == AddNew(Dedupe(xs), x)
  {
    assert (xs + [x])[..|xs|] == xs;
  }

  lemma SubnetOfEachSnoc(hosts: seq<MapHost>, i: nat)
    requires i < |hosts|
    ensures SubnetOfEach(hosts[..i + 1]) == SubnetOfEach(hosts[..i]) + [ExtractSubnet(hosts[i].ip)]
  {
  }

  /** The first `forEach`: collect the router hosts' IPs into the `gateways` Set. */
  method CollectGateways(hosts: seq<MapHost>) returns (gateways: seq<string>)
    ensures gateways == Gateways(hosts)
  {
    gateways := [];
    for i := 0 to |hosts|
      invariant gateways == Dedupe(RouterIps(hosts[..i]))
    {
      assert hosts[..i + 1][..i] == hosts[..i];
      var h := hosts[i];
      assert RouterIps(hosts[..i + 1]) == RouterIps(hosts[..i]) + (if IsRouterHost(h) then [h.ip] else []);
      if h.deviceType != "" && Contains(Lower(h.deviceType), "router") {
        DedupeSnoc(RouterIps(hosts[..i]), h.ip);
        if h.ip !in gateways {
          gateways := gateways + [h.ip];
        }
      } else {
        assert RouterIps(hosts[..i + 1]) == RouterIps(hosts[..i]);
      }
    }
    assert hosts[..|hosts|] == hosts;
  }

  /** The second `forEach`: one node per host, and each host's subnet added to the `subnets` Set. */
  method AddHostNodes(hosts: seq<MapHost>, gateways: seq<string>) returns (nodes: seq<Element>, subnets: seq<string>)
    ensures nodes == HostNodes(hosts, gateways)
    ensures subnets == Subnets(hosts)
  {
    nodes := [];
    subnets := [];
    for i := 0 to |hosts|
      invariant nodes == HostNodes(hosts[..i], gateways)
      invariant subnets == Dedupe(SubnetOfEach(hosts[..i]))
    {
      assert hosts[..i + 1][..i] == hosts[..i];
      var subnet := ExtractSubnet(hosts[i].ip);
      SubnetOfEachSnoc(hosts, i);
      DedupeSnoc(SubnetOfEach(hosts[..i]), subnet);
      if subnet !in subnets {
        subnets := subnets + [subnet];
      }
      nodes := nodes + [HostNode(hosts[i], gateways)];
    }
    assert hosts[..|hosts|] == hosts;
  }

  /** The third `forEach`: one parent node per subnet. */
  method AddSubnetNodes(subs: seq<string>) returns (nodes: seq<Element>)
    ensures nodes == SubnetNodes(subs)
  {
    nodes := [];
    for i := 0 to |subs|
      invariant nodes == SubnetNodes(subs[..i])
    {
      assert subs[..i + 1][..i] == subs[..i];
      nodes := nodes + [SubnetNode(subs[i])];
    }
    assert subs[..|subs|] == subs;
  }

  /** `hosts.filter(h => extractSubnet(h.ip) === sub)`, as IPs. */
  method FilterSubnet(hosts: seq<MapHost>, sub: string) returns (ips: seq<string>)
    ensures ips == SubnetIps(hosts, sub)
  {
    ips := [];
    for i := 0 to |hosts|
      invariant ips == SubnetIps(hosts[..i], sub)
    {
      assert hosts[..i + 1][..i] == hosts[..i];
      if ExtractSubnet(hosts[i].ip) == sub {
        ips := ips + [hosts[i].ip];
      }
    }
    assert hosts[..|hosts|] == hosts;
  }

  /** `find(h => gateways.has(h.ip))`. */
  method FindGateway(ips: seq<string>, gateways: seq<string>) returns (center: Option<string>)
    ensures center == FirstGateway(ips, gateways)
  {
    var i := 0;
    while i < |ips|
      invariant i <= |ips|
      invariant FirstGateway(ips[i..], gateways) == FirstGateway(ips, gateways)
    {
      assert ips[i..][1..] == ips[i + 1..];
      if ips[i] in gateways {
        return Some(ips[i]);
      }
      i := i + 1;
    }
    return None;
  }

  /** `find(h => h.ip === ip)`: whether some member has that IP. */
  method FindMember(ips: seq<string>, ip: string) returns (found: bool)
    ensures found <==> ip in ips
  {
    for i := 0 to |ips|
      invariant ip !in ips[..i]
    {
      assert ips[..i + 1] == ips[..i] + [ips[i]];
      if ips[i] == ip {
        return true;
      }
    }
    assert ips[..|ips|] == ips;
    return false;
  }

  /** The star loop: an edge from every other member to the center. */
  method StarEdges(ips: seq<string>, center: string) returns (edges: seq<Element>)
    ensures edges == Star(ips, center)
  {
    edges := [];
    for i := 0 to |ips|
      invariant edges == Star(ips[..i], center)
    {
      assert ips[..i + 1][..i] == ips[..i];
      if ips[i] != center {
        edges := edges + [EdgeOf(ips[i], center, LinkColor)];
      }
    }
    assert ips[..|ips|] == ips;
  }

  /** The path loop: an edge between each member and the next. */
  method PathEdges(ips: seq<string>, color: string) returns (edges: seq<Element>)
    ensures edges == Path(ips, color)
  {
    edges := [];
    var i := 0;
    while i + 1 < |ips|
      invariant |ips| == 0 ==> i == 0
      invariant |ips| > 0 ==> i <= |ips| - 1
      invariant |edges| == i
      invariant forall k :: 0 <= k < i ==> edges[k] == EdgeOf(ips[k], ips[k + 1], color)
    {
      edges := edges + [EdgeOf(ips[i], ips[i + 1], color)];
      i := i + 1;
    }
  }

  /** One subnet's edges: star around its first gateway, else around its ".1" host, else a path. */
  method SubnetEdgesOf(hosts: seq<MapHost>, gateways: seq<string>, sub: string) returns (edges: seq<Element>)
    ensures edges == SubnetEdges(hosts, gateways, sub)
  {
    var ips := FilterSubnet(hosts, sub);
    var center := FindGateway(ips, gateways);
    var defaultGw := ReplaceFirst(sub, "0/24", "1");
    var gwFound := FindMember(ips, defaultGw);
    if center.Some? && center.value != "" {
      edges := StarEdges(ips, center.value);
    } else if gwFound {
      edges := StarEdges(ips, defaultGw);
    } else {
      edges := PathEdges(ips, LinkColor);
    }
  }

  /** The fourth `forEach`: every subnet's edges, subnet by subnet. */
  method AddSubnetEdges(hosts: seq<MapHost>, gateways: seq<string>, subs: seq<string>) returns (edges: seq<Element>)
    ensures edges == AllSubnetEdges(hosts, gateways, subs)
  {
    edges := [];
    for i := 0 to |subs|
      invariant edges == AllSubnetEdges(hosts, gateways, subs[..i])
    {
      assert subs[..i + 1][..i] == subs[..i];
      var more := SubnetEdgesOf(hosts, gateways, subs[i]);
      edges := edges + more;
    }
    assert subs[..|subs|] == subs;
  }

  /** `updateTopologyData` up to the graph library: the element list it adds. */
  method UpdateTopologyData(hosts: seq<MapHost>) returns (elements: seq<Element>)
    ensures elements == Elements(hosts)
  {
    var gateways := CollectGateways(hosts);
    var hostNodes, subnets := AddHostNodes(hosts, gateways);
    var subnetNodes := AddSubnetNodes(subnets);
    var subnetEdges := AddSubnetEdges(hosts, gateways, subnets);
    var chain := PathEdges(gateways, ChainColor);
    elements := hostNodes + subnetNodes + (subnetEdges + chain);
  }
}
