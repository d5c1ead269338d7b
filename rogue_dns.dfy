/**
 * Rogue DNS detection over tshark DNS response lines (source IP, source MAC,
 * query name, A records, answer count).  The first responding server of a
 * capture session is trusted and reported once; later responses are reported
 * only when they come from another server.  Timestamps are not modelled.
 */
module RogueDns {
  import opened Common
  import opened Text

  datatype DnsAlert = DnsAlert(
    serverIp: string,
    serverMac: string,
    domain: string,
    resolvedIp: string,
    isTrusted: bool)

  /** The fields of an accepted response, before trust is decided. */
  datatype DnsResponse = DnsResponse(serverIp: string, serverMac: string, domain: string, resolvedIp: string)

  /**
   * `None` for a blank line, a line with fewer than five (untrimmed) tab
   * fields, or one without a server IP or an A record.
   */
  function ParseResponse(line: string): (r: Option<DnsResponse>)
    ensures TrimJs(line) == "" || |Split(line, '\t')| < 5 ==> r.None?
    ensures r.Some? ==>
      var parts := Split(line, '\t');
      && r.value.serverIp == FirstValue(parts[0]) != ""
      && r.value.serverMac == Lower(parts[1])
      && r.value.domain == FirstValue(parts[2])
      && r.value.resolvedIp == parts[3] != ""
    ensures TrimJs(line) != "" && |Split(line, '\t')| >= 5 ==>
      (r.Some? <==> FirstValue(Split(line, '\t')[0]) != "" && Split(line, '\t')[3] != "")
  {
    if TrimJs(line) == "" then None
    else
      var parts := Split(line, '\t');
      if |parts| < 5 then None
      else
        var serverIp := FirstValue(parts[0]);
        var serverMac := Lower(parts[1]);
        var aRecord := parts[3];
        if serverIp == "" || aRecord == "" then None
        else Some(DnsResponse(serverIp, serverMac, FirstValue(parts[2]), aRecord))
  }

  datatype DnsStep = DnsStep(trusted: set<string>, alert: Option<DnsAlert>)

  function AlertOf(d: DnsResponse, isTrusted: bool): DnsAlert {
    DnsAlert(d.serverIp, d.serverMac, d.domain, d.resolvedIp, isTrusted)
  }

  /** `onLineParsed`: trust on first use, alerts only for untrusted servers afterwards. */
  function OnLine(trusted: set<string>, line: string): (r: DnsStep)
    ensures ParseResponse(line).None? ==> r == DnsStep(trusted, None)
    ensures ParseResponse(line).Some? && trusted == {} ==>
      var d := ParseResponse(line).value;
      r == DnsStep({d.serverIp}, Some(AlertOf(d, true)))
    ensures ParseResponse(line).Some? && trusted != {} ==>
      var d := ParseResponse(line).value;
      && r.trusted == trusted
      && (r.alert.Some? <==> d.serverIp !in trusted)
      && (r.alert.Some? ==> r.alert.value == AlertOf(d, false))
    ensures |trusted| <= 1 ==> |r.trusted| <= 1
  {
    match ParseResponse(line)
    case None => DnsStep(trusted, None)
    case Some(d) =>
      if |trusted| == 0 then DnsStep(trusted + {d.serverIp}, Some(AlertOf(d, true)))
      else if d.serverIp in trusted then DnsStep(trusted, None)
      else DnsStep(trusted, Some(AlertOf(d, false)))
  }

  /** The trusted set after feeding `lines` in order. */
  function Replay(trusted: set<string>, lines: seq<string>): set<string>
    decreases |lines|
  {
    if lines == [] then trusted else Replay(OnLine(trusted, lines[0]).trusted, lines[1..])
  }

  /** The server IP of the first accepted response. */
  function FirstServer(lines: seq<string>): Option<string>
    decreases |lines|
  {
    if lines == [] then None
    else if ParseResponse(lines[0]).Some? then Some(ParseResponse(lines[0]).value.serverIp)
    else FirstServer(lines[1..])
  }

  /** Once a server is trusted, no later line changes the trusted set. */
  lemma {:induction false} ReplayKeepsTrust(trusted: set<string>, lines: seq<string>)
    requires trusted != {}
    ensures Replay(trusted, lines) == trusted
    decreases |lines|
  {
    if lines != [] {
      ReplayKeepsTrust(trusted, lines[1..]);
    }
  }

  /** A session trusts exactly the server of its first accepted response. */
  lemma {:induction false} ReplayTrustsFirst(lines: seq<string>)
    ensures Replay({}, lines) == if FirstServer(lines).Some? then {FirstServer(lines).value} else {}
    decreases |lines|
  {
    if lines != [] {
      if ParseResponse(lines[0]).Some? {
        ReplayKeepsTrust({ParseResponse(lines[0]).value.serverIp}, lines[1..]);
      } else {
        ReplayTrustsFirst(lines[1..]);
      }
    }
  }

  /** The alerts reported while feeding `lines` in order. */
  function Alerts(trusted: set<string>, lines: seq<string>): seq<DnsAlert>
    decreases |lines|
  {
    if lines == [] then []
    else
      var step := OnLine(trusted, lines[0]);
      (if step.alert.Some? then [step.alert.value] else []) + Alerts(step.trusted, lines[1..])
  }

  /** The accepted responses in `lines` that come from a server other than `server`. */
  function ForeignResponses(server: string, lines: seq<string>): seq<DnsResponse>
    decreases |lines|
  {
    if lines == [] then []
    else
      var r := ParseResponse(lines[0]);
      (if r.Some? && r.value.serverIp != server then [r.value] else []) + ForeignResponses(server, lines[1..])
  }

  /**
   * Once `server` is trusted, the session reports one untrusted alert per
   * response from any other server, in order, and nothing for `server`'s own
   * responses or for lines that are not responses.
   */
  lemma {:induction false} TrustedSessionAlerts(server: string, lines: seq<string>)
    ensures var alerts, foreign := Alerts({server}, lines), ForeignResponses(server, lines);
      && |alerts| == |foreign|
      && forall k :: 0 <= k < |alerts| ==> alerts[k] == AlertOf(foreign[k], false)
    decreases |lines|
  {
    if lines != [] {
      TrustedSessionAlerts(server, lines[1..]);
      var step := OnLine({server}, lines[0]);
      assert step.trusted == {server};
    }
  }

  /** A session opens with a trusted report for the first responding server. */
  lemma FirstResponseTrusted(lines: seq<string>)
    requires |lines| > 0 && ParseResponse(lines[0]).Some?
    ensures var d := ParseResponse(lines[0]).value;
      Alerts({}, lines) == [AlertOf(d, true)] + Alerts({d.serverIp}, lines[1..])
  {
  }

  /** The detector with its module-level `trustedDnsServers`. */
  class RogueDnsDetector {
    var trustedDnsServers: set<string>

    ghost predicate Valid()
      reads this
    {
      |trustedDnsServers| <= 1
    }

    constructor()
      ensures Valid() && trustedDnsServers == {}
    {
      trustedDnsServers := {};
    }

    /** `startRogueDnsDetection` clears the trusted set. */
    method Start()
      modifies this
      ensures Valid() && trustedDnsServers == {}
    {
      trustedDnsServers := {};
    }

    method OnLineParsed(line: string) returns (alert: Option<DnsAlert>)
      requires Valid()
      modifies this
      ensures Valid()
      ensures DnsStep(trustedDnsServers, alert) == OnLine(old(trustedDnsServers), line)
    {
      alert := None;
      if TrimJs(line) == "" {
        return;
      }
      var parts := Split(line, '\t');
      if |parts| < 5 {
        return;
      }
      var serverIp := FirstValue(parts[0]);
      var serverMac := Lower(parts[1]);
      var aRecord := parts[3];
      if serverIp == "" || aRecord == "" {
        return;
      }
      var domain := FirstValue(parts[2]);
      var d := DnsResponse(serverIp, serverMac, domain, aRecord);
      if |trustedDnsServers| == 0 {
        trustedDnsServers := trustedDnsServers + {serverIp};
        alert := Some(AlertOf(d, true));
        return;
      }
      if serverIp !in trustedDnsServers {
        alert := Some(AlertOf(d, false));
      }
    }
  }
}
