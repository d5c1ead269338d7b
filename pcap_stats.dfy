/**
 * Live-capture statistics over decoded tshark packets: packet and byte
 * totals, a per-protocol count, bytes per talker and cleartext warnings, and
 * the periodic update with the ten largest talkers.  Packets arrive already
 * decoded into their layers; the epoch timestamp is not modelled.
 */
module PcapStats {
  import opened Common

  datatype Endpoints = Endpoints(src: string, dst: string)

  datatype Ports = Ports(src: string, dst: string)

  /**
   * The layers of a packet.  A layer's field that tshark left out reads as "":
   * `http` holds the request URI, `dns` the query name, `arp` the protocol
   * addresses.
   */
  datatype Layers = Layers(
    frameLength: Option<nat>,
    ip: Option<Endpoints>,
    ipv6: Option<Endpoints>,
    tcp: Option<Ports>,
    http: Option<string>,
    udp: Option<Ports>,
    dns: Option<string>,
    icmp: bool,
    arp: Option<Endpoints>)

  datatype PacketSummary = PacketSummary(srcIp: string, dstIp: string, protocol: string, length: nat, info: string)

  const ProtocolNames: seq<string> := ["TCP", "HTTP", "UDP", "DNS", "ICMP", "ARP", "Other"]

  const HttpWarning: string := "Cleartext protocol detected: HTTP"

  /** TCP (HTTP with an http layer) before UDP (DNS with a dns layer) before ICMP before ARP. */
  function ProtocolOf(l: Layers): (p: string)
    ensures p in ProtocolNames
    ensures l.tcp.Some? ==> (p == "HTTP" <==> l.http.Some?) && (p == "TCP" <==> l.http.None?)
    ensures l.tcp.None? && l.udp.Some? ==> (p == "DNS" <==> l.dns.Some?) && (p == "UDP" <==> l.dns.None?)
    ensures l.tcp.None? && l.udp.None? && l.icmp ==> p == "ICMP"
    ensures l.tcp.None? && l.udp.None? && !l.icmp ==> (p == "ARP" <==> l.arp.Some?) && (p == "Other" <==> l.arp.None?)
  {
    if l.tcp.Some? then (if l.http.Some? then "HTTP" else "TCP")
    else if l.udp.Some? then (if l.dns.Some? then "DNS" else "UDP")
    else if l.icmp then "ICMP"
    else if l.arp.Some? then "ARP"
    else "Other"
  }

  function PortsInfo(p: Ports): string {
    "SrcPort: " + p.src + " DstPort: " + p.dst
  }

  function OrElse(s: string, fallback: string): string {
    if s != "" then s else fallback
  }

  /** The packet's addresses: IPv4, else IPv6, else "Unknown"; an ARP packet uses its protocol addresses. */
  function AddressesOf(l: Layers): (e: Endpoints)
    ensures l.tcp.None? && l.udp.None? && !l.icmp && l.arp.Some? ==>
      e == Endpoints(OrElse(l.arp.value.src, "ARP"), OrElse(l.arp.value.dst, "ARP"))
    ensures !(l.tcp.None? && l.udp.None? && !l.icmp && l.arp.Some?) ==>
      e == if l.ip.Some? then l.ip.value else if l.ipv6.Some? then l.ipv6.value else Endpoints("Unknown", "Unknown")
  {
    var e := if l.ip.Some? then l.ip.value else if l.ipv6.Some? then l.ipv6.value else Endpoints("Unknown", "Unknown");
    if l.tcp.None? && l.udp.None? && !l.icmp && l.arp.Some? then
      Endpoints(OrElse(l.arp.value.src, "ARP"), OrElse(l.arp.value.dst, "ARP"))
    else e
  }

  function InfoOf(l: Layers): string {
    if l.tcp.Some? then
      (if l.http.Some? then OrElse(l.http.value, PortsInfo(l.tcp.value)) else PortsInfo(l.tcp.value))
    else if l.udp.Some? then
      (if l.dns.Some? then OrElse(l.dns.value, "DNS Query") else PortsInfo(l.udp.value))
    else if l.icmp then "ICMP Message"
    else if l.arp.Some? then "ARP Request/Reply"
    else ""
  }

  /** The summary handed to the caller for an accepted packet. */
  function SummaryOf(l: Layers): PacketSummary
    requires l.frameLength.Some?
  {
    var e := AddressesOf(l);
    PacketSummary(e.src, e.dst, ProtocolOf(l), l.frameLength.value, InfoOf(l))
  }

  /** `(m[k] || 0)`. */
  function CountIn(m: map<string, nat>, k: string): nat {
    if k in m then m[k] else 0
  }

  /** `m[ip] = (m[ip] || 0) + n`, skipped for "Unknown". */
  function Credit(m: map<string, nat>, ip: string, n: nat): (r: map<string, nat>)
    ensures ip == "Unknown" ==> r == m
    ensures ip != "Unknown" ==> r == m[ip := CountIn(m, ip) + n]
  {
    if ip == "Unknown" then m else m[ip := CountIn(m, ip) + n]
  }

  /** The sum of the protocol counts. */
  function ProtocolTotal(m: map<string, nat>): nat {
    CountIn(m, "TCP") + CountIn(m, "HTTP") + CountIn(m, "UDP") + CountIn(m, "DNS")
      + CountIn(m, "ICMP") + CountIn(m, "ARP") + CountIn(m, "Other")
  }

  /** Counting one more packet of a known protocol adds one to the total. */
  lemma ProtocolTotalBump(m: map<string, nat>, p: string)
    requires p in ProtocolNames
    ensures ProtocolTotal(m[p := CountIn(m, p) + 1]) == ProtocolTotal(m) + 1
  {
    var m' := m[p := CountIn(m, p) + 1];
    assert forall q :: q != p ==> CountIn(m', q) == CountIn(m, q);
    assert CountIn(m', p) == CountIn(m, p) + 1;
  }

  /** The warning for a protocol sent in cleartext, if it is one of HTTP, FTP and Telnet. */
  function WarningOf(protocol: string): Option<string> {
    if protocol in ["HTTP", "FTP", "Telnet"] then Some("Cleartext protocol detected: " + protocol) else None
  }

  /** Only HTTP is ever classified, so the HTTP warning is the only one raised. */
  lemma OnlyHttpWarning(l: Layers)
    ensures WarningOf(ProtocolOf(l)).Some? <==> ProtocolOf(l) == "HTTP"
    ensures WarningOf(ProtocolOf(l)).Some? ==> WarningOf(ProtocolOf(l)).value == HttpWarning
  {
  }

  function AddWarning(warnings: seq<string>, w: Option<string>): (r: seq<string>)
    ensures NoDuplicates(warnings) ==> NoDuplicates(r)
    ensures forall x :: x in r <==> x in warnings || (w.Some? && x == w.value)
  {
    if w.Some? && w.value !in warnings then warnings + [w.value] else warnings
  }

  // ------------------------------------------------------------ top talkers

  datatype Talker = Talker(ip: string, bytes: nat)

  function TalkerBytes(t: Talker): int { t.bytes }

  function Entries(m: map<string, nat>, keys: seq<string>): (r: seq<Talker>)
    requires forall k :: 0 <= k < |keys| ==> keys[k] in m
    ensures |r| == |keys|
    ensures forall k :: 0 <= k < |keys| ==> r[k] == Talker(keys[k], m[keys[k]])
    decreases |keys|
  {
    if keys == [] then []
    else Entries(m, keys[..|keys| - 1]) + [Talker(keys[|keys| - 1], m[keys[|keys| - 1]])]
  }

  /**
   * `list` is a top ten of the talkers: at most ten distinct entries of the
   * map, all of them when there are at most ten, most bytes first, and no
   * talker left out has more bytes than one taken.
   */
  predicate TopTalkers(list: seq<Talker>, m: map<string, nat>) {
    && |list| == Min(10, |m|)
    && NoDuplicates(list)
    && (forall k :: 0 <= k < |list| ==> list[k].ip in m && m[list[k].ip] == list[k].bytes)
    && SortedDesc(list, TalkerBytes)
    && (forall ip :: ip in m && Talker(ip, m[ip]) !in list ==>
          forall k :: 0 <= k < |list| ==> list[k].bytes >= m[ip])
  }

  lemma EntriesDistinct(m: map<string, nat>, keys: seq<string>)
    requires NoDuplicates(keys) && forall k :: 0 <= k < |keys| ==> keys[k] in m
    ensures NoDuplicates(Entries(m, keys))
  {
    var es := Entries(m, keys);
    forall i, j | 0 <= i < j < |es| ensures es[i] != es[j] {
      assert es[i].ip == keys[i] && es[j].ip == keys[j];
    }
  }

  lemma TalkersTaken(m: map<string, nat>, keys: seq<string>, sorted: seq<Talker>, list: seq<Talker>)
    requires forall k :: 0 <= k < |keys| ==> keys[k] in m
    requires multiset(sorted) == multiset(Entries(m, keys))
    requires list == if |sorted| > 10 then sorted[..10] else sorted
    ensures forall k :: 0 <= k < |list| ==> list[k].ip in m && m[list[k].ip] == list[k].bytes
  {
    var es := Entries(m, keys);
    forall k | 0 <= k < |list| ensures list[k].ip in m && m[list[k].ip] == list[k].bytes {
      assert list[k] == sorted[k];
      assert sorted[k] in multiset(es);
      var q :| 0 <= q < |es| && es[q] == sorted[k];
    }
  }

  lemma TalkersLeftOut(m: map<string, nat>, keys: seq<string>, sorted: seq<Talker>, list: seq<Talker>)
    requires forall k :: k in keys <==> k in m
    requires multiset(sorted) == multiset(Entries(m, keys)) && SortedDesc(sorted, TalkerBytes)
    requires list == if |sorted| > 10 then sorted[..10] else sorted
    ensures forall ip :: ip in m && Talker(ip, m[ip]) !in list ==>
      forall k :: 0 <= k < |list| ==> list[k].bytes >= m[ip]
  {
    var es := Entries(m, keys);
    forall ip | ip in m && Talker(ip, m[ip]) !in list
      ensures forall k :: 0 <= k < |list| ==> list[k].bytes >= m[ip]
    {
      var q :| 0 <= q < |keys| && keys[q] == ip;
      assert es[q] == Talker(ip, m[ip]);
      assert es[q] in multiset(sorted);
      var p :| 0 <= p < |sorted| && sorted[p] == es[q];
      assert p >= |list|;
      forall k | 0 <= k < |list| ensures list[k].bytes >= m[ip] {
        assert list[k] == sorted[k];
        assert TalkerBytes(sorted[k]) >= TalkerBytes(sorted[p]);
      }
    }
  }

  lemma TalkersTakeTen(sorted: seq<Talker>, list: seq<Talker>)
    requires NoDuplicates(sorted) && SortedDesc(sorted, TalkerBytes)
    requires list == if |sorted| > 10 then sorted[..10] else sorted
    ensures NoDuplicates(list) && SortedDesc(list, TalkerBytes) && |list| == Min(10, |sorted|)
  {
  }

  lemma TopTalkersOfSorted(m: map<string, nat>, keys: seq<string>, sorted: seq<Talker>, list: seq<Talker>)
    requires NoDuplicates(keys) && forall k :: k in keys <==> k in m
    requires multiset(sorted) == multiset(Entries(m, keys)) && SortedDesc(sorted, TalkerBytes)
    requires list == if |sorted| > 10 then sorted[..10] else sorted
    ensures TopTalkers(list, m)
  {
    var es := Entries(m, keys);
    DistinctSeqSize(keys, m.Keys);
    EntriesDistinct(m, keys);
    DistinctPermutation(es, sorted);
    assert |sorted| == |multiset(sorted)| == |multiset(es)| == |es|;
    TalkersTaken(m, keys, sorted, list);
    TalkersLeftOut(m, keys, sorted, list);
    TalkersTakeTen(sorted, list);
  }

  /** `currentStats`. */
  datatype Stats = Stats(
    totalPackets: nat,
    totalBytes: nat,
    protocols: map<string, nat>,
    talkers: map<string, nat>,
    warnings: seq<string>)

  const EmptyStats := Stats(0, 0, map[], map[], [])

  /**
   * The protocol counts add up to the packet total, "Unknown" is never a
   * talker, and each warning is recorded once.
   */
  predicate StatsValid(s: Stats) {
    && ProtocolTotal(s.protocols) == s.totalPackets
    && (forall p :: p in s.protocols ==> p in ProtocolNames)
    && "Unknown" !in s.talkers
    && NoDuplicates(s.warnings)
    && (forall w :: w in s.warnings ==> w == HttpWarning)
  }

  /**
   * An accepted packet: one more packet, its length, one count for its
   * protocol, its length to both talkers, the cleartext warning once.
   */
  function Count(s: Stats, l: Layers): (r: Stats)
    requires l.frameLength.Some?
    ensures r.totalPackets == s.totalPackets + 1 && r.totalBytes == s.totalBytes + l.frameLength.value
    ensures CountIn(r.protocols, ProtocolOf(l)) == CountIn(s.protocols, ProtocolOf(l)) + 1
    ensures forall p :: p != ProtocolOf(l) ==> CountIn(r.protocols, p) == CountIn(s.protocols, p)
    ensures s.talkers.Keys <= r.talkers.Keys && s.protocols.Keys <= r.protocols.Keys
  {
    var n := l.frameLength.value;
    var p := ProtocolOf(l);
    var e := AddressesOf(l);
    Stats(s.totalPackets + 1, s.totalBytes + n,
          s.protocols[p := CountIn(s.protocols, p) + 1],
          Credit(Credit(s.talkers, e.src, n), e.dst, n),
          AddWarning(s.warnings, WarningOf(p)))
  }

  /** Counting a packet keeps the statistics consistent. */
  lemma CountKeepsValid(s: Stats, l: Layers)
    requires StatsValid(s) && l.frameLength.Some?
    ensures StatsValid(Count(s, l))
  {
    ProtocolTotalBump(s.protocols, ProtocolOf(l));
    OnlyHttpWarning(l);
  }

  datatype StatsUpdate = StatsUpdate(
    totalPackets: nat,
    totalBytes: nat,
    protocols: map<string, nat>,
    topTalkers: seq<Talker>,
    warnings: seq<string>)

  /** The statistics of the running capture. */
  class PcapAnalyzer {
    var currentStats: Stats

    ghost predicate Valid()
      reads this
    {
      StatsValid(currentStats)
    }

    constructor()
      ensures Valid() && currentStats == EmptyStats
    {
      currentStats := EmptyStats;
    }

    /** `resetStats`. */
    method Reset()
      modifies this
      ensures Valid() && currentStats == EmptyStats
    {
      currentStats := EmptyStats;
    }

    /** `processPacket`: a packet without layers or without a frame changes nothing. */
    method ProcessPacket(packet: Option<Layers>) returns (summary: Option<PacketSummary>)
      requires Valid()
      modifies this
      ensures Valid()
      ensures packet.None? || packet.value.frameLength.None? ==>
        summary.None? && currentStats == old(currentStats)
      ensures packet.Some? && packet.value.frameLength.Some? ==>
        summary == Some(SummaryOf(packet.value)) && currentStats == Count(old(currentStats), packet.value)
    {
      if packet.None? || packet.value.frameLength.None? {
        return None;
      }
      var l := packet.value;
      var length := l.frameLength.value;
      var protocol := ProtocolOf(l);
      var e := AddressesOf(l);
      CountKeepsValid(currentStats, l);
      var talkers := Credit(Credit(currentStats.talkers, e.src, length), e.dst, length);
      var warnings := AddWarning(currentStats.warnings, WarningOf(protocol));
      currentStats := Stats(
        currentStats.totalPackets + 1,
        currentStats.totalBytes + length,
        currentStats.protocols[protocol := CountIn(currentStats.protocols, protocol) + 1],
        talkers,
        warnings);
      summary := Some(SummaryOf(l));
    }

    /** `computeStatsUpdate`: the counters as they stand and the ten largest talkers. */
    method ComputeStatsUpdate() returns (u: StatsUpdate)
      ensures u.totalPackets == currentStats.totalPackets && u.totalBytes == currentStats.totalBytes
      ensures u.protocols == currentStats.protocols && u.warnings == currentStats.warnings
      ensures TopTalkers(u.topTalkers, currentStats.talkers)
    {
      var talkers := currentStats.talkers;
      var keys := Enumerate(talkers.Keys);
      var entries: seq<Talker> := [];
      for i := 0 to |keys|
        invariant entries == Entries(talkers, keys[..i])
      {
        assert keys[..i + 1][..i] == keys[..i];
        entries := entries + [Talker(keys[i], talkers[keys[i]])];
      }
      assert keys[..|keys|] == keys;
      var sorted := SortDesc(entries, TalkerBytes);
      SortDescSorted(entries, TalkerBytes);
      var top := if |sorted| > 10 then sorted[..10] else sorted;
      TopTalkersOfSorted(talkers, keys, sorted, top);
      u := StatsUpdate(currentStats.totalPackets, currentStats.totalBytes, currentStats.protocols, top,
                       currentStats.warnings);
    }
  }
}
