/**
 * Rogue DHCP detection over tshark DHCP offer/ack lines (source IP, source
 * MAC, server identifier, router, DNS servers, subnet mask).  The first
 * server seen in a capture session is trusted; every accepted line is
 * reported, marked trusted or not.  Timestamps are not modelled.
 */
module RogueDhcp {
  import opened Common
  import opened Text

  datatype DhcpAlert = DhcpAlert(
    serverIp: string,
    serverMac: string,
    offeredRouter: string,
    offeredDns: string,
    offeredSubnet: string,
    isTrusted: bool)

  /** The fields of an accepted offer, before trust is decided. */
  datatype DhcpOffer = DhcpOffer(
    serverId: string,
    serverMac: string,
    router: string,
    dns: string,
    subnetMask: string)

  /**
   * `None` for a line with fewer than two fields or without a source IP. The
   * server identifier is the first value of the third field, or the source IP
   * when that field is empty.
   */
  function ParseOffer(line: string): (r: Option<DhcpOffer>)
    ensures r.Some? <==> |TrimmedFields(line)| >= 2 && FirstValue(TrimmedFields(line)[0]) != ""
    ensures r.Some? ==>
      var parts := TrimmedFields(line);
      && (FieldAt(parts, 2) == "" ==> r.value.serverId == FirstValue(parts[0]))
      && (FieldAt(parts, 2) != "" ==> r.value.serverId == FirstValue(parts[2]))
      && r.value.dns == FieldAt(parts, 4) && r.value.subnetMask == FieldAt(parts, 5)
  {
    var parts := TrimmedFields(line);
    if |parts| < 2 then None
    else
      var srcIp := FirstValue(parts[0]);
      var srcMac := FirstValue(parts[1]);
      var serverId := if FieldAt(parts, 2) != "" then FirstValue(parts[2]) else srcIp;
      var router := if FieldAt(parts, 3) != "" then FirstValue(parts[3]) else "";
      if srcIp == "" then None
      else Some(DhcpOffer(serverId, srcMac, router, FieldAt(parts, 4), FieldAt(parts, 5)))
  }

  datatype DhcpStep = DhcpStep(trusted: set<string>, alert: Option<DhcpAlert>)

  /** `onLineParsed`: trust on first use, one alert per accepted line. */
  function OnLine(trusted: set<string>, line: string): (r: DhcpStep)
    ensures ParseOffer(line).None? ==> r == DhcpStep(trusted, None)
    ensures ParseOffer(line).Some? ==>
      var o := ParseOffer(line).value;
      && r.alert.Some?
      && r.alert.value == DhcpAlert(o.serverId, o.serverMac, o.router, o.dns, o.subnetMask, r.alert.value.isTrusted)
      && (trusted == {} ==> r.trusted == {o.serverId} && r.alert.value.isTrusted)
      && (trusted != {} ==> r.trusted == trusted && (r.alert.value.isTrusted <==> o.serverId in trusted))
    ensures |trusted| <= 1 ==> |r.trusted| <= 1
  {
    match ParseOffer(line)
    case None => DhcpStep(trusted, None)
    case Some(o) =>
      var isTrusted := |trusted| == 0 || o.serverId in trusted;
      var trusted' := if |trusted| == 0 then trusted + {o.serverId} else trusted;
      DhcpStep(trusted', Some(DhcpAlert(o.serverId, o.serverMac, o.router, o.dns, o.subnetMask, isTrusted)))
  }

  /** The trusted set after feeding `lines` in order. */
  function Replay(trusted: set<string>, lines: seq<string>): set<string>
    decreases |lines|
  {
    if lines == [] then trusted else Replay(OnLine(trusted, lines[0]).trusted, lines[1..])
  }

  /** The server identifier of the first accepted line. */
  function FirstServer(lines: seq<string>): Option<string>
    decreases |lines|
  {
    if lines == [] then None
    else if ParseOffer(lines[0]).Some? then Some(ParseOffer(lines[0]).value.serverId)
    else FirstServer(lines[1..])
  }

  /** Once a server is trusted, no later line changes the trusted set. */
  lemma {:induction false} ReplayKeepsTrust(trusted: set<string>, lines: seq<string>)
    requires trusted != {}
    ensures Replay(trusted, lines) == trusted
    decreases |lines|
  {
    if lines != [] {
      ReplayKeepsTrust(trusted, lines[1..]);
    }
  }

  /** A session trusts exactly the server of its first accepted line. */
  lemma {:induction false} ReplayTrustsFirst(lines: seq<string>)
    ensures Replay({}, lines) == if FirstServer(lines).Some? then {FirstServer(lines).value} else {}
    decreases |lines|
  {
    if lines != [] {
      if ParseOffer(lines[0]).Some? {
        ReplayKeepsTrust({ParseOffer(lines[0]).value.serverId}, lines[1..]);
      } else {
        ReplayTrustsFirst(lines[1..]);
      }
    }
  }

  /** The detector with its module-level `trustedServers`. */
  class RogueDhcpDetector {
    var trustedServers: set<string>

    ghost predicate Valid()
      reads this
    {
      |trustedServers| <= 1
    }

    constructor()
      ensures Valid() && trustedServers == {}
    {
      trustedServers := {};
    }

    /** `startDhcpDetection` clears the trusted set. */
    method Start()
      modifies this
      ensures Valid() && trustedServers == {}
    {
      trustedServers := {};
    }

    method OnLineParsed(line: string) returns (alert: Option<DhcpAlert>)
      requires Valid()
      modifies this
      ensures Valid()
      ensures DhcpStep(trustedServers, alert) == OnLine(old(trustedServers), line)
    {
      alert := None;
      var parts := TrimmedFields(line);
      if |parts| >= 2 {
        var srcIp := FirstValue(parts[0]);
        var srcMac := FirstValue(parts[1]);
        var serverId := if FieldAt(parts, 2) != "" then FirstValue(parts[2]) else srcIp;
        var router := if FieldAt(parts, 3) != "" then FirstValue(parts[3]) else "";
        var dns := FieldAt(parts, 4);
        var subnetMask := FieldAt(parts, 5);
        if srcIp == "" {
          return;
        }
        var isTrusted := |trustedServers| == 0 || serverId in trustedServers;
        if |trustedServers| == 0 {
          trustedServers := trustedServers + {serverId};
        }
        alert := Some(DhcpAlert(serverId, srcMac, router, dns, subnetMask, isTrusted));
      }
    }
  }
}
