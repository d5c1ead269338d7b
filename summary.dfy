/**
 * The management summary of the reports engine (`GenerateSummary`): host and
 * port totals, vulnerability counts by severity, the ten riskiest hosts, the
 * ports seen on three or more hosts, and the ports opened since a baseline.
 *
 * The scan loop visits, host by host, every deep-scan result and then every
 * basic port; `Visits` lists those steps in loop order and `Advance` is the
 * state the loop has built after them.  The `...Tally` lemmas say what that
 * state means in terms of the visits alone.
 */
module ReportSummary {
  import opened Common
  import opened Models

  /** `HostWithPorts`: a scanned host with its deep-scan port results. */
  datatype ReportHost = ReportHost(host: Host, deepPorts: seq<DeepScanPort>)

  datatype RiskyHost = RiskyHost(ip: string, hostname: string, vulnCount: nat)

  datatype ExposedPort = ExposedPort(port: U16, service: string, count: nat)

  datatype NewExposure = NewExposure(ip: string, port: U16)

  datatype Summary = Summary(
    totalHosts: nat,
    totalPorts: nat,
    criticalCount: nat,
    warningCount: nat,
    riskyHosts: seq<RiskyHost>,
    exposedPorts: seq<ExposedPort>,
    newExposures: seq<NewExposure>)

  // ------------------------------------------------------------ guessService

  const KnownServicePorts: set<int> :=
    {21, 22, 23, 25, 53, 80, 110, 143, 443, 445, 3306, 3389, 5432, 5900, 6379, 8080, 27017}

  /** The well-known service of a port, "Unknown" for every port without one. */
  function GuessService(port: U16): (r: string)
    ensures r == "Unknown" <==> port !in KnownServicePorts
  {
    match port
    case 21 => "FTP"
    case 22 => "SSH"
    case 23 => "Telnet"
    case 25 => "SMTP"
    case 53 => "DNS"
    case 80 => "HTTP"
    case 110 => "POP3"
    case 143 => "IMAP"
    case 443 => "HTTPS"
    case 445 => "SMB"
    case 3306 => "MySQL"
    case 3389 => "RDP"
    case 5432 => "PostgreSQL"
    case 5900 => "VNC"
    case 6379 => "Redis"
    case 8080 => "HTTP Proxy"
    case 27017 => "MongoDB"
    case _ => "Unknown"
  }

  // ------------------------------------------------------------ the scan loop

  /** One step of the scan loop: a deep-scan result of a host, or one of its basic ports. */
  datatype Visit = Deep(ip: string, hostname: string, dp: DeepScanPort) | Basic(port: U16)

  function PortOf(v: Visit): U16 {
    if v.Deep? then v.dp.port else v.port
  }

  function DeepVisits(h: Host, dps: seq<DeepScanPort>): seq<Visit>
    decreases |dps|
  {
    if dps == [] then [] else DeepVisits(h, dps[..|dps| - 1]) + [Deep(h.ip, h.hostname, dps[|dps| - 1])]
  }

  function BasicVisits(ports: seq<U16>): seq<Visit>
    decreases |ports|
  {
    if ports == [] then [] else BasicVisits(ports[..|ports| - 1]) + [Basic(ports[|ports| - 1])]
  }

  function HostVisits(h: ReportHost): seq<Visit> {
    DeepVisits(h.host, h.deepPorts) + BasicVisits(h.host.ports)
  }

  /** Every step of the scan loop, in order. */
  function Visits(hosts: seq<ReportHost>): seq<Visit>
    decreases |hosts|
  {
    if hosts == [] then [] else Visits(hosts[..|hosts| - 1]) + HostVisits(hosts[|hosts| - 1])
  }

  /** What the loop has built: `riskyMap`, `portCounts`, `portServices` and the two severity counters. */
  datatype Tally = Tally(
    risky: map<string, RiskyHost>,
    counts: map<U16, nat>,
    services: map<U16, string>,
    critical: nat,
    warning: nat)

  const NoTally := Tally(map[], map[], map[], 0, 0)

  /** A Go map lookup: the zero value for a missing key. */
  function CountIn(m: map<U16, nat>, p: U16): nat {
    if p in m then m[p] else 0
  }

  function ServiceIn(m: map<U16, string>, p: U16): string {
    if p in m then m[p] else ""
  }

  /** The effect of one visit on the loop state. */
  function Step(t: Tally, v: Visit): Tally {
    match v
    case Basic(p) => t.(counts := t.counts[p := CountIn(t.counts, p) + 1])
    case Deep(ip, hostname, dp) =>
      var risky :=
        if !dp.vulnerable then t.risky
        else if ip in t.risky then t.risky[ip := t.risky[ip].(vulnCount := t.risky[ip].vulnCount + 1)]
        else t.risky[ip := RiskyHost(ip, hostname, 1)];
      Tally(
        risky,
        t.counts[dp.port := CountIn(t.counts, dp.port) + 1],
        if ServiceIn(t.services, dp.port) == "" then t.services[dp.port := dp.serviceName] else t.services,
        if dp.vulnerable && dp.severity == "critical" then t.critical + 1 else t.critical,
        if dp.vulnerable && dp.severity == "warning" then t.warning + 1 else t.warning)
  }

  function Advance(t: Tally, vs: seq<Visit>): Tally
    decreases |vs|
  {
    if vs == [] then t else Step(Advance(t, vs[..|vs| - 1]), vs[|vs| - 1])
  }

  lemma AdvanceSnoc(t: Tally, vs: seq<Visit>, v: Visit)
    ensures Advance(t, vs + [v]) == Step(Advance(t, vs), v)
  {
    assert (vs + [v])[..|vs|] == vs;
  }

  lemma {:induction false} AdvanceAppend(t: Tally, xs: seq<Visit>, ys: seq<Visit>)
    ensures Advance(t, xs + ys) == Advance(Advance(t, xs), ys)
    decreases |ys|
  {
    if ys != [] {
      var n := |ys| - 1;
      AdvanceAppend(t, xs, ys[..n]);
      calc {
        Advance(t, xs + ys);
        { assert xs + ys == (xs + ys[..n]) + [ys[n]]; }
        Advance(t, (xs + ys[..n]) + [ys[n]]);
        { AdvanceSnoc(t, xs + ys[..n], ys[n]); }
        Step(Advance(t, xs + ys[..n]), ys[n]);
        Step(Advance(Advance(t, xs), ys[..n]), ys[n]);
        { AdvanceSnoc(Advance(t, xs), ys[..n], ys[n]); }
        Advance(Advance(t, xs), ys[..n] + [ys[n]]);
        { assert ys == ys[..n] + [ys[n]]; }
        Advance(Advance(t, xs), ys);
      }
    } else {
      assert xs + ys == xs;
    }
  }

  // ------------------------------------------------------------ what the loop state means

  /** The port of every visit: deep-scan ports and basic ports alike. */
  function PortList(vs: seq<Visit>): seq<U16>
    decreases |vs|
  {
    if vs == [] then [] else PortList(vs[..|vs| - 1]) + [PortOf(vs[|vs| - 1])]
  }

  predicate Vulnerable(v: Visit) {
    v.Deep? && v.dp.vulnerable
  }

  /** The host IP of every vulnerable deep-scan result, once per result. */
  function VulnIps(vs: seq<Visit>): seq<string>
    decreases |vs|
  {
    if vs == [] then []
    else VulnIps(vs[..|vs| - 1]) + (if Vulnerable(vs[|vs| - 1]) then [vs[|vs| - 1].ip] else [])
  }

  /** The severity of every vulnerable deep-scan result. */
  function VulnSeverities(vs: seq<Visit>): seq<string>
    decreases |vs|
  {
    if vs == [] then []
    else VulnSeverities(vs[..|vs| - 1]) + (if Vulnerable(vs[|vs| - 1]) then [vs[|vs| - 1].dp.severity] else [])
  }

  /** The hostname of the first vulnerable result of `ip`, scanning from the front. */
  function FirstVulnHostname(vs: seq<Visit>, ip: string): string
    decreases |vs|
  {
    if vs == [] then ""
    else if Vulnerable(vs[0]) && vs[0].ip == ip then vs[0].hostname
    else FirstVulnHostname(vs[1..], ip)
  }

  /** The first non-empty deep-scan service name of port `p`, or "". */
  function FirstService(vs: seq<Visit>, p: U16): string
    decreases |vs|
  {
    if vs == [] then ""
    else if vs[0].Deep? && vs[0].dp.port == p && vs[0].dp.serviceName != "" then vs[0].dp.serviceName
    else FirstService(vs[1..], p)
  }

  lemma {:induction false} FirstVulnHostnameSnoc(vs: seq<Visit>, v: Visit, ip: string)
    ensures FirstVulnHostname(vs + [v], ip) ==
      if ip in VulnIps(vs) then FirstVulnHostname(vs, ip)
      else if Vulnerable(v) && v.ip == ip then v.hostname
      else ""
    decreases |vs|
  {
    if vs == [] {
      assert [v][1..] == [];
    } else {
      assert (vs + [v])[1..] == vs[1..] + [v];
      FirstVulnHostnameSnoc(vs[1..], v, ip);
      VulnIpsCons(vs);
    }
  }

  /** `VulnIps` read from the front. */
  lemma {:induction false} VulnIpsCons(vs: seq<Visit>)
    requires vs != []
    ensures VulnIps(vs) == (if Vulnerable(vs[0]) then [vs[0].ip] else []) + VulnIps(vs[1..])
    decreases |vs|
  {
    if |vs| > 1 {
      var n := |vs| - 1;
      VulnIpsCons(vs[..n]);
      assert vs[..n][1..] == vs[1..][..n - 1];
      assert vs[1..][n - 1] == vs[n];
    }
  }

  lemma {:induction false} FirstServiceSnoc(vs: seq<Visit>, v: Visit, p: U16)
    ensures FirstService(vs + [v], p) ==
      if FirstService(vs, p) != "" then FirstService(vs, p)
      else if v.Deep? && v.dp.port == p then v.dp.serviceName
      else ""
    decreases |vs|
  {
    if vs == [] {
      assert [v][1..] == [];
    } else {
      assert (vs + [v])[1..] == vs[1..] + [v];
      FirstServiceSnoc(vs[1..], v, p);
    }
  }

  /** `portCounts[p]` is the number of visits of port `p`, deep-scan and basic together. */
  lemma {:induction false} CountsTally(vs: seq<Visit>, p: U16)
    ensures var c := Advance(NoTally, vs).counts;
      (p in c <==> p in PortList(vs)) && CountIn(c, p) == multiset(PortList(vs))[p]
    decreases |vs|
  {
    if vs != [] {
      CountsTally(vs[..|vs| - 1], p);
    }
  }

  /** The two counters count the vulnerable results of severity "critical" and "warning". */
  lemma {:induction false} SeverityTally(vs: seq<Visit>)
    ensures Advance(NoTally, vs).critical == multiset(VulnSeverities(vs))["critical"]
    ensures Advance(NoTally, vs).warning == multiset(VulnSeverities(vs))["warning"]
    decreases |vs|
  {
    if vs != [] {
      SeverityTally(vs[..|vs| - 1]);
    }
  }

  /**
   * `riskyMap` holds exactly the IPs with a vulnerable result; each entry
   * carries its own IP, the number of such results and the hostname of the
   * first of them.
   */
  lemma {:induction false} RiskyTally(vs: seq<Visit>, ip: string)
    ensures var r := Advance(NoTally, vs).risky;
      && (ip in r <==> ip in VulnIps(vs))
      && (ip in r ==> r[ip] == RiskyHost(ip, FirstVulnHostname(vs, ip), multiset(VulnIps(vs))[ip]))
    decreases |vs|
  {
    if vs != [] {
      var n := |vs| - 1;
      var init, v := vs[..n], vs[n];
      RiskyTally(init, ip);
      assert vs == init + [v];
      AdvanceSnoc(NoTally, init, v);
      RiskyStep(Advance(NoTally, init), v, ip);
      VulnIpsSnoc(init, v);
      FirstVulnHostnameSnoc(init, v, ip);
    }
  }

  /** What one visit does to the entry of `ip` in `riskyMap`. */
  lemma RiskyStep(t: Tally, v: Visit, ip: string)
    ensures ip in Step(t, v).risky <==> ip in t.risky || (Vulnerable(v) && v.ip == ip)
    ensures ip in t.risky && !(Vulnerable(v) && v.ip == ip) ==> Step(t, v).risky[ip] == t.risky[ip]
    ensures ip in t.risky && Vulnerable(v) && v.ip == ip ==>
              Step(t, v).risky[ip] == t.risky[ip].(vulnCount := t.risky[ip].vulnCount + 1)
    ensures ip !in t.risky && Vulnerable(v) && v.ip == ip ==> Step(t, v).risky[ip] == RiskyHost(ip, v.hostname, 1)
  {
  }

  lemma VulnIpsSnoc(vs: seq<Visit>, v: Visit)
    ensures VulnIps(vs + [v]) == VulnIps(vs) + (if Vulnerable(v) then [v.ip] else [])
    ensures multiset(VulnIps(vs + [v])) == multiset(VulnIps(vs)) + (if Vulnerable(v) then multiset{v.ip} else multiset{})
  {
    assert (vs + [v])[..|vs|] == vs;
  }

  /** `portServices[p]` is the first non-empty deep-scan service name of `p`. */
  lemma {:induction false} ServicesTally(vs: seq<Visit>, p: U16)
    ensures ServiceIn(Advance(NoTally, vs).services, p) == FirstService(vs, p)
    decreases |vs|
  {
    if vs != [] {
      var n := |vs| - 1;
      ServicesTally(vs[..n], p);
      assert vs == vs[..n] + [vs[n]];
      FirstServiceSnoc(vs[..n], vs[n], p);
    }
  }

  lemma {:induction false} VulnIpsAppend(xs: seq<Visit>, ys: seq<Visit>)
    ensures VulnIps(xs + ys) == VulnIps(xs) + VulnIps(ys)
    decreases |ys|
  {
    if ys != [] {
      var n := |ys| - 1;
      assert (xs + ys)[..|xs + ys| - 1] == xs + ys[..n];
      VulnIpsAppend(xs, ys[..n]);
    } else {
      assert xs + ys == xs;
    }
  }

  lemma {:induction false} DeepVisitsVulnIps(h: Host, dps: seq<DeepScanPort>, ip: string)
    ensures ip in VulnIps(DeepVisits(h, dps)) <==> h.ip == ip && exists k :: 0 <= k < |dps| && dps[k].vulnerable
    decreases |dps|
  {
    if dps != [] {
      var n := |dps| - 1;
      DeepVisitsVulnIps(h, dps[..n], ip);
      var before := DeepVisits(h, dps[..n]);
      var v := Deep(h.ip, h.hostname, dps[n]);
      assert (before + [v])[..|before|] == before;
      if exists k :: 0 <= k < |dps| && dps[k].vulnerable {
        var k :| 0 <= k < |dps| && dps[k].vulnerable;
        if k < n {
          assert dps[..n][k] == dps[k];
        }
      }
    }
  }

  lemma {:induction false} BasicVisitsVulnIps(ports: seq<U16>)
    ensures VulnIps(BasicVisits(ports)) == []
    decreases |ports|
  {
    if ports != [] {
      BasicVisitsVulnIps(ports[..|ports| - 1]);
    }
  }

  predicate HasVulnerablePort(h: ReportHost) {
    exists k :: 0 <= k < |h.deepPorts| && h.deepPorts[k].vulnerable
  }

  lemma HostVulnIps(h: ReportHost, ip: string)
    ensures ip in VulnIps(HostVisits(h)) <==> h.host.ip == ip && HasVulnerablePort(h)
  {
    VulnIpsAppend(DeepVisits(h.host, h.deepPorts), BasicVisits(h.host.ports));
    BasicVisitsVulnIps(h.host.ports);
    DeepVisitsVulnIps(h.host, h.deepPorts, ip);
  }

  /** Host `h` has address `ip` and a vulnerable deep-scan result. */
  predicate VulnerableHost(h: ReportHost, ip: string) {
    h.host.ip == ip && HasVulnerablePort(h)
  }

  /** An IP has a vulnerable visit iff some host with that IP has a vulnerable deep-scan result. */
  lemma {:induction false} VulnIpsOfHosts(hosts: seq<ReportHost>, ip: string)
    ensures ip in VulnIps(Visits(hosts)) <==> exists i :: 0 <= i < |hosts| && VulnerableHost(hosts[i], ip)
    decreases |hosts|
  {
    if hosts != [] {
      var n := |hosts| - 1;
      var init, last := hosts[..n], hosts[n];
      VulnIpsOfHosts(init, ip);
      assert Visits(hosts) == Visits(init) + HostVisits(last);
      VulnIpsAppend(Visits(init), HostVisits(last));
      HostVulnIps(last, ip);
      var inInit := ip in VulnIps(Visits(init));
      assert ip in VulnIps(Visits(hosts)) <==> inInit || VulnerableHost(last, ip);
      if inInit {
        var i :| 0 <= i < n && VulnerableHost(init[i], ip);
        assert hosts[i] == init[i];
      }
      if exists i :: 0 <= i < |hosts| && VulnerableHost(hosts[i], ip) {
        var i :| 0 <= i < |hosts| && VulnerableHost(hosts[i], ip);
        if i < n {
          assert init[i] == hosts[i];
        }
      }
    }
  }

  // ------------------------------------------------------------ risky hosts

  function VulnCount(r: RiskyHost): int { r.vulnCount }

  /** Every entry sits under its own IP. */
  predicate KeyedByIp(m: map<string, RiskyHost>) {
    forall ip :: ip in m ==> m[ip].ip == ip
  }

  /**
   * `list` is a top-ten of the values of `m`: at most ten distinct entries of
   * `m`, all of them when there are at most ten, most vulnerabilities first,
   * and no entry left out has more vulnerabilities than one taken.
   */
  predicate TopTen(list: seq<RiskyHost>, m: map<string, RiskyHost>) {
    && |list| == Min(10, |m|)
    && NoDuplicates(list)
    && (forall k :: 0 <= k < |list| ==> list[k].ip in m && m[list[k].ip] == list[k])
    && SortedDesc(list, VulnCount)
    && (forall ip :: ip in m && m[ip] !in list ==>
          forall k :: 0 <= k < |list| ==> list[k].vulnCount >= m[ip].vulnCount)
  }

  /** Collect the map's values, sort them by vulnerability count and keep ten. */
  method RiskiestHosts(m: map<string, RiskyHost>) returns (list: seq<RiskyHost>)
    requires KeyedByIp(m)
    ensures TopTen(list, m)
  {
    var keys := Enumerate(m.Keys);
    var values := CollectValues(m, keys);
    var sorted := SortDesc(values, VulnCount);
    SortDescSorted(values, VulnCount);
    list := if |sorted| > 10 then sorted[..10] else sorted;
    TopTenOfSorted(m, keys, values, sorted, list);
  }

  /** The `for _, r := range riskyMap` loop appending each value, in iteration order. */
  method CollectValues(m: map<string, RiskyHost>, keys: seq<string>) returns (values: seq<RiskyHost>)
    requires forall k :: 0 <= k < |keys| ==> keys[k] in m
    ensures values == ValuesAt(m, keys)
  {
    values := [];
    for i := 0 to |keys|
      invariant values == ValuesAt(m, keys[..i])
    {
      assert keys[..i + 1][..i] == keys[..i];
      values := values + [m[keys[i]]];
    }
    assert keys[..|keys|] == keys;
  }

  lemma TopTenOfSorted(m: map<string, RiskyHost>, keys: seq<string>, values: seq<RiskyHost>,
                       sorted: seq<RiskyHost>, list: seq<RiskyHost>)
    requires KeyedByIp(m)
    requires NoDuplicates(keys) && forall k :: k in keys <==> k in m.Keys
    requires values == ValuesAt(m, keys)
    requires multiset(sorted) == multiset(values) && SortedDesc(sorted, VulnCount)
    requires list == if |sorted| > 10 then sorted[..10] else sorted
    ensures TopTen(list, m)
  {
    DistinctSeqSize(keys, m.Keys);
    ValuesDistinct(m, keys, values);
    DistinctPermutation(values, sorted);
    assert |sorted| == |multiset(sorted)| == |multiset(values)| == |values|;
    TakenFromMap(m, keys, values, sorted, list);
    LeftOutNotLarger(m, keys, values, sorted, list);
    TakeTen(sorted, list);
  }

  lemma TakeTen(sorted: seq<RiskyHost>, list: seq<RiskyHost>)
    requires NoDuplicates(sorted) && SortedDesc(sorted, VulnCount)
    requires list == if |sorted| > 10 then sorted[..10] else sorted
    ensures NoDuplicates(list) && SortedDesc(list, VulnCount) && |list| == Min(10, |sorted|)
  {
  }

  lemma ValuesDistinct(m: map<string, RiskyHost>, keys: seq<string>, values: seq<RiskyHost>)
    requires KeyedByIp(m) && NoDuplicates(keys)
    requires forall k :: 0 <= k < |keys| ==> keys[k] in m
    requires values == ValuesAt(m, keys)
    ensures NoDuplicates(values)
  {
    forall i, j | 0 <= i < j < |values| ensures values[i] != values[j] {
      assert values[i].ip == keys[i] && values[j].ip == keys[j];
    }
  }

  lemma TakenFromMap(m: map<string, RiskyHost>, keys: seq<string>, values: seq<RiskyHost>,
                     sorted: seq<RiskyHost>, list: seq<RiskyHost>)
    requires forall k :: 0 <= k < |keys| ==> keys[k] in m
    requires values == ValuesAt(m, keys) && KeyedByIp(m)
    requires multiset(sorted) == multiset(values)
    requires list == if |sorted| > 10 then sorted[..10] else sorted
    ensures forall k :: 0 <= k < |list| ==> list[k].ip in m && m[list[k].ip] == list[k]
  {
    forall k | 0 <= k < |list| ensures list[k].ip in m && m[list[k].ip] == list[k] {
      assert list[k] == sorted[k];
      assert sorted[k] in multiset(values);
      var q :| 0 <= q < |values| && values[q] == sorted[k];
      assert m[keys[q]] == sorted[k];
    }
  }

  lemma LeftOutNotLarger(m: map<string, RiskyHost>, keys: seq<string>, values: seq<RiskyHost>,
                         sorted: seq<RiskyHost>, list: seq<RiskyHost>)
    requires forall k :: k in keys <==> k in m.Keys
    requires values == ValuesAt(m, keys)
    requires multiset(sorted) == multiset(values) && SortedDesc(sorted, VulnCount)
    requires list == if |sorted| > 10 then sorted[..10] else sorted
    ensures forall ip :: ip in m && m[ip] !in list ==>
      forall k :: 0 <= k < |list| ==> list[k].vulnCount >= m[ip].vulnCount
  {
    forall ip | ip in m && m[ip] !in list
      ensures forall k :: 0 <= k < |list| ==> list[k].vulnCount >= m[ip].vulnCount
    {
      var q :| 0 <= q < |keys| && keys[q] == ip;
      assert values[q] == m[ip];
      assert m[ip] in multiset(sorted);
      var p :| 0 <= p < |sorted| && sorted[p] == m[ip];
      assert p >= |list|;
      forall k | 0 <= k < |list| ensures list[k].vulnCount >= m[ip].vulnCount {
        assert list[k] == sorted[k];
        assert VulnCount(sorted[k]) >= VulnCount(sorted[p]);
      }
    }
  }

  // ------------------------------------------------------------ exposed ports

  function ExposureCount(e: ExposedPort): int { e.count }

  /** The service shown for an exposed port: the recorded one, else the guessed one. */
  function ShownService(services: map<U16, string>, p: U16): string {
    if ServiceIn(services, p) == "" then GuessService(p) else ServiceIn(services, p)
  }

  /** `e` is the exposure entry of a port counted at least three times. */
  predicate ExposedIn(t: Tally, e: ExposedPort) {
    e.port in t.counts && t.counts[e.port] >= 3 && e.count == t.counts[e.port]
    && e.service == ShownService(t.services, e.port)
  }

  /** The loop over `portCounts`, in map order. */
  method CollectExposed(t: Tally) returns (r: seq<ExposedPort>)
    ensures NoDuplicates(r)
    ensures forall e :: e in r <==> ExposedIn(t, e)
  {
    var ports := Enumerate(t.counts.Keys);
    r := [];
    for i := 0 to |ports|
      invariant NoDuplicates(r)
      invariant forall e :: e in r <==> ExposedIn(t, e) && e.port in ports[..i]
    {
      var port := ports[i];
      var count := t.counts[port];
      assert forall x :: x in ports[..i + 1] <==> x in ports[..i] || x == port;
      if count >= 3 {
        var service := ServiceIn(t.services, port);
        if service == "" {
          service := GuessService(port);
        }
        assert port !in ports[..i];
        r := r + [ExposedPort(port, service, count)];
      }
    }
    assert ports[..|ports|] == ports;
  }

  /** Sorted exposure entries: distinct, most-seen first, exactly the ports seen three or more times. */
  method ExposedPorts(t: Tally) returns (r: seq<ExposedPort>)
    ensures NoDuplicates(r) && SortedDesc(r, ExposureCount)
    ensures forall e :: e in r <==> ExposedIn(t, e)
  {
    var found := CollectExposed(t);
    r := SortDesc(found, ExposureCount);
    SortDescSorted(found, ExposureCount);
    DistinctPermutation(found, r);
    assert forall e :: e in r <==> e in multiset(found);
  }

  // ------------------------------------------------------------ new exposures

  function AddedExposures(ip: string, ports: seq<U16>): seq<NewExposure>
    decreases |ports|
  {
    if ports == [] then [] else AddedExposures(ip, ports[..|ports| - 1]) + [NewExposure(ip, ports[|ports| - 1])]
  }

  /** One entry per added port of every port change, in order. */
  function Exposures(changes: seq<PortChange>): seq<NewExposure>
    decreases |changes|
  {
    if changes == [] then []
    else Exposures(changes[..|changes| - 1])
         + AddedExposures(changes[|changes| - 1].ip, changes[|changes| - 1].addedPorts)
  }

  lemma {:induction false} AddedExposuresMembers(ip: string, ports: seq<U16>, e: NewExposure)
    ensures e in AddedExposures(ip, ports) <==> e.ip == ip && e.port in ports
    ensures |AddedExposures(ip, ports)| == |ports|
    decreases |ports|
  {
    if ports != [] {
      var n := |ports| - 1;
      AddedExposuresMembers(ip, ports[..n], e);
      assert ports == ports[..n] + [ports[n]];
    }
  }

  /** Port change `pc` opened port `e.port` on host `e.ip`. */
  predicate AddedBy(pc: PortChange, e: NewExposure) {
    pc.ip == e.ip && e.port in pc.addedPorts
  }

  /** An (IP, port) pair is a new exposure iff some port change of that IP added the port. */
  lemma {:induction false} ExposuresMembers(changes: seq<PortChange>, e: NewExposure)
    ensures e in Exposures(changes) <==> exists c :: 0 <= c < |changes| && AddedBy(changes[c], e)
    decreases |changes|
  {
    if changes != [] {
      var n := |changes| - 1;
      var init, last := changes[..n], changes[n];
      ExposuresMembers(init, e);
      AddedExposuresMembers(last.ip, last.addedPorts, e);
      assert Exposures(changes) == Exposures(init) + AddedExposures(last.ip, last.addedPorts);
      if e in Exposures(changes) {
        if e in Exposures(init) {
          var c :| 0 <= c < |init| && AddedBy(init[c], e);
          assert changes[c] == init[c];
        } else {
          assert AddedBy(changes[n], e);
        }
      }
      if exists c :: 0 <= c < |changes| && AddedBy(changes[c], e) {
        var c :| 0 <= c < |changes| && AddedBy(changes[c], e);
        if c < n {
          assert init[c] == changes[c];
        }
      }
    }
  }

  /** The inner loop over one change's added ports. */
  method AppendAdded(acc: seq<NewExposure>, pc: PortChange) returns (r: seq<NewExposure>)
    ensures r == acc + AddedExposures(pc.ip, pc.addedPorts)
  {
    r := acc;
    for j := 0 to |pc.addedPorts|
      invariant r == acc + AddedExposures(pc.ip, pc.addedPorts[..j])
    {
      assert pc.addedPorts[..j + 1][..j] == pc.addedPorts[..j];
      r := r + [NewExposure(pc.ip, pc.addedPorts[j])];
    }
    assert pc.addedPorts[..|pc.addedPorts|] == pc.addedPorts;
  }

  method NewExposures(baseline: Option<DiffResult>) returns (r: seq<NewExposure>)
    ensures r == if baseline.Some? then Exposures(baseline.value.portChanges) else []
  {
    r := [];
    if baseline.Some? {
      var changes := baseline.value.portChanges;
      for i := 0 to |changes|
        invariant r == Exposures(changes[..i])
      {
        assert changes[..i + 1][..i] == changes[..i];
        r := AppendAdded(r, changes[i]);
      }
      assert changes[..|changes|] == changes;
    }
  }

  // ------------------------------------------------------------ GenerateSummary

  /** The number of basic ports over all hosts. */
  function PortTotal(hosts: seq<ReportHost>): nat
    decreases |hosts|
  {
    if hosts == [] then 0 else PortTotal(hosts[..|hosts| - 1]) + |hosts[|hosts| - 1].host.ports|
  }

  /** The body of the deep-scan loop for one result `dp` of host `h`. */
  method VisitDeep(h: Host, dp: DeepScanPort, t: Tally) returns (t': Tally)
    ensures t' == Step(t, Deep(h.ip, h.hostname, dp))
  {
    var risky := t.risky;
    var critical, warning := t.critical, t.warning;
    if dp.vulnerable {
      if h.ip in risky {
        risky := risky[h.ip := risky[h.ip].(vulnCount := risky[h.ip].vulnCount + 1)];
      } else {
        risky := risky[h.ip := RiskyHost(h.ip, h.hostname, 1)];
      }
      if dp.severity == "critical" {
        critical := critical + 1;
      } else if dp.severity == "warning" {
        warning := warning + 1;
      }
    }
    var counts := t.counts[dp.port := CountIn(t.counts, dp.port) + 1];
    var services := t.services;
    if ServiceIn(services, dp.port) == "" {
      services := services[dp.port := dp.serviceName];
    }
    t' := Tally(risky, counts, services, critical, warning);
  }

  /** The deep-scan loop of one host. */
  method TallyDeepPorts(h: Host, dps: seq<DeepScanPort>, t0: Tally) returns (t: Tally)
    ensures t == Advance(t0, DeepVisits(h, dps))
  {
    t := t0;
    for j := 0 to |dps|
      invariant t == Advance(t0, DeepVisits(h, dps[..j]))
    {
      assert dps[..j + 1][..j] == dps[..j];
      AdvanceSnoc(t0, DeepVisits(h, dps[..j]), Deep(h.ip, h.hostname, dps[j]));
      t := VisitDeep(h, dps[j], t);
    }
    assert dps[..|dps|] == dps;
  }

  /** The basic-port loop of one host. */
  method TallyBasicPorts(ports: seq<U16>, t0: Tally) returns (t: Tally)
    ensures t == Advance(t0, BasicVisits(ports))
  {
    t := t0;
    for j := 0 to |ports|
      invariant t == Advance(t0, BasicVisits(ports[..j]))
    {
      var p := ports[j];
      assert ports[..j + 1][..j] == ports[..j];
      AdvanceSnoc(t0, BasicVisits(ports[..j]), Basic(p));
      t := t.(counts := t.counts[p := CountIn(t.counts, p) + 1]);
    }
    assert ports[..|ports|] == ports;
  }

  /** The loop body for one host: its deep-scan results, then its basic ports. */
  method TallyHost(h: ReportHost, t0: Tally) returns (t: Tally)
    ensures t == Advance(t0, HostVisits(h))
  {
    t := TallyDeepPorts(h.host, h.deepPorts, t0);
    t := TallyBasicPorts(h.host.ports, t);
    AdvanceAppend(t0, DeepVisits(h.host, h.deepPorts), BasicVisits(h.host.ports));
  }

  lemma VisitsSnoc(hosts: seq<ReportHost>, i: nat)
    requires i < |hosts|
    ensures Visits(hosts[..i + 1]) == Visits(hosts[..i]) + HostVisits(hosts[i])
  {
    assert hosts[..i + 1][..i] == hosts[..i];
  }

  /** The whole scan loop over the hosts. */
  method TallyHosts(hosts: seq<ReportHost>) returns (t: Tally)
    ensures t == Advance(NoTally, Visits(hosts))
  {
    t := NoTally;
    for i := 0 to |hosts|
      invariant t == Advance(NoTally, Visits(hosts[..i]))
    {
      t := TallyHost(hosts[i], t);
      AdvanceAppend(NoTally, Visits(hosts[..i]), HostVisits(hosts[i]));
      VisitsSnoc(hosts, i);
    }
    assert hosts[..|hosts|] == hosts;
  }

  method TotalPorts(hosts: seq<ReportHost>) returns (n: nat)
    ensures n == PortTotal(hosts)
  {
    n := 0;
    for i := 0 to |hosts|
      invariant n == PortTotal(hosts[..i])
    {
      assert hosts[..i + 1][..i] == hosts[..i];
      n := n + |hosts[i].host.ports|;
    }
    assert hosts[..|hosts|] == hosts;
  }

  /** The tally's risky map is keyed by IP. */
  lemma RiskyKeyed(vs: seq<Visit>)
    ensures KeyedByIp(Advance(NoTally, vs).risky)
  {
    forall ip | ip in Advance(NoTally, vs).risky ensures Advance(NoTally, vs).risky[ip].ip == ip {
      RiskyTally(vs, ip);
    }
  }

  /** `GenerateSummary`; `None` stands for a nil baseline. */
  method GenerateSummary(hosts: seq<ReportHost>, baseline: Option<DiffResult>) returns (s: Summary)
    ensures s.totalHosts == |hosts| && s.totalPorts == PortTotal(hosts)
    ensures s.criticalCount == multiset(VulnSeverities(Visits(hosts)))["critical"]
    ensures s.warningCount == multiset(VulnSeverities(Visits(hosts)))["warning"]
    ensures TopTen(s.riskyHosts, Advance(NoTally, Visits(hosts)).risky)
    ensures NoDuplicates(s.exposedPorts) && SortedDesc(s.exposedPorts, ExposureCount)
    ensures forall e :: e in s.exposedPorts <==> ExposedIn(Advance(NoTally, Visits(hosts)), e)
    ensures s.newExposures == if baseline.Some? then Exposures(baseline.value.portChanges) else []
  {
    var totalPorts := TotalPorts(hosts);
    var t := TallyHosts(hosts);
    SeverityTally(Visits(hosts));
    RiskyKeyed(Visits(hosts));
    var risky := RiskiestHosts(t.risky);
    var exposed := ExposedPorts(t);
    var added := NewExposures(baseline);
    s := Summary(|hosts|, totalPorts, t.critical, t.warning, risky, exposed, added);
  }

  /**
   * An exposure entry in the summary is a port visited at least three times
   * (deep-scan results and basic ports together), with that count, and the
   * first non-empty deep-scan service name of the port, else its guessed one.
   */
  lemma ExposedMeaning(hosts: seq<ReportHost>, e: ExposedPort)
    ensures var vs := Visits(hosts);
      ExposedIn(Advance(NoTally, vs), e) <==>
        && multiset(PortList(vs))[e.port] >= 3
        && e.count == multiset(PortList(vs))[e.port]
        && e.service == (if FirstService(vs, e.port) == "" then GuessService(e.port) else FirstService(vs, e.port))
  {
    CountsTally(Visits(hosts), e.port);
    ServicesTally(Visits(hosts), e.port);
  }

  /**
   * A risky-hosts entry is an IP with a vulnerable deep-scan result, its
   * number of such results, and the hostname of the first of them.
   */
  lemma RiskyMeaning(hosts: seq<ReportHost>, r: RiskyHost)
    ensures var m := Advance(NoTally, Visits(hosts)).risky;
      (r.ip in m && m[r.ip] == r) <==>
        && r.ip in VulnIps(Visits(hosts))
        && r.vulnCount == multiset(VulnIps(Visits(hosts)))[r.ip]
        && r.hostname == FirstVulnHostname(Visits(hosts), r.ip)
  {
    RiskyTally(Visits(hosts), r.ip);
  }
}
