/**
 * Helpers of the renderer's main view: HTML escaping, the security posture
 * badge of a host card, the CVSS score -> severity bands, and how a streamed
 * deep-scan result is recorded in the host's audit history.  DOM updates are
 * not modelled.
 */
module RendererIndex {
  import opened Common
  import opened Text

  // ------------------------------------------------------------ escapeHtml

  /** The entity written for one character; other characters stand for themselves. */
  function EscapeChar(c: char): string {
    if c == '&' then "&amp;"
    else if c == '<' then "&lt;"
    else if c == '>' then "&gt;"
    else if c == '"' then "&quot;"
    else if c == '\'' then "&#039;"
    else [c]
  }

  /** Every character escaped on its own. */
  function EscapeEach(s: string): (r: string)
    decreases |s|
  {
    if s == [] then [] else EscapeChar(s[0]) + EscapeEach(s[1..])
  }

  /** The characters `escapeHtml` replaces, in the order it replaces them: '&' first. */
  function EscapeOrder(k: nat): char
    requires k < 5
  {
    if k == 0 then '&' else if k == 1 then '<' else if k == 2 then '>' else if k == 3 then '"' else '\''
  }

  /** The global replacements from the `from`-th one on, each by the character's entity. */
  function ReplaceFrom(s: string, from: nat): string
    decreases 5 - from
  {
    if from >= 5 then s
    else ReplaceFrom(ReplaceChar(s, EscapeOrder(from), EscapeChar(EscapeOrder(from))), from + 1)
  }

  /**
   * `escapeHtml`: "" for null and undefined; otherwise five global
   * replacements, '&' first so that the entities written later are not
   * escaped again.
   */
  function EscapeHtml(unsafe: Option<string>): (r: string)
  {
    if unsafe.None? then "" else ReplaceFrom(unsafe.value, 0)
  }

  lemma {:induction false} ReplaceCharAppend(a: string, b: string, c: char, rep: string)
    ensures ReplaceChar(a + b, c, rep) == ReplaceChar(a, c, rep) + ReplaceChar(b, c, rep)
    decreases |a|
  {
    if a == [] {
      assert a + b == b;
    } else {
      var head := if a[0] == c then rep else [a[0]];
      assert (a + b)[0] == a[0];
      assert (a + b)[1..] == a[1..] + b;
      ReplaceCharAppend(a[1..], b, c, rep);
      calc {
        ReplaceChar(a + b, c, rep);
        head + ReplaceChar(a[1..] + b, c, rep);
        head + (ReplaceChar(a[1..], c, rep) + ReplaceChar(b, c, rep));
        (head + ReplaceChar(a[1..], c, rep)) + ReplaceChar(b, c, rep);
        ReplaceChar(a, c, rep) + ReplaceChar(b, c, rep);
      }
    }
  }

  lemma ReplaceCharOne(x: char, c: char, rep: string)
    ensures ReplaceChar([x], c, rep) == if x == c then rep else [x]
  {
    assert [x][1..] == [];
  }

  lemma {:induction false} ReplaceCharAbsent(s: string, c: char, rep: string)
    requires c !in s
    ensures ReplaceChar(s, c, rep) == s
    decreases |s|
  {
    if s != [] {
      ReplaceCharAbsent(s[1..], c, rep);
    }
  }

  lemma {:induction false} ReplaceFromAppend(a: string, b: string, from: nat)
    ensures ReplaceFrom(a + b, from) == ReplaceFrom(a, from) + ReplaceFrom(b, from)
    decreases 5 - from
  {
    if from < 5 {
      var c := EscapeOrder(from);
      ReplaceCharAppend(a, b, c, EscapeChar(c));
      ReplaceFromAppend(ReplaceChar(a, c, EscapeChar(c)), ReplaceChar(b, c, EscapeChar(c)), from + 1);
    }
  }

  /** A character whose turn has passed is left alone by the remaining replacements. */
  lemma {:induction false} ReplaceFromAbsent(s: string, from: nat)
    requires from <= 5
    requires forall k :: from <= k < 5 ==> EscapeOrder(k) !in s
    ensures ReplaceFrom(s, from) == s
    decreases 5 - from
  {
    if from < 5 {
      var c := EscapeOrder(from);
      ReplaceCharAbsent(s, c, EscapeChar(c));
      ReplaceFromAbsent(s, from + 1);
    }
  }

  /** The chain of replacements on a single character gives its entity. */
  lemma {:induction false} EscapeCharChain(x: char, from: nat)
    requires from <= 5
    requires forall k :: 0 <= k < from ==> x != EscapeOrder(k)
    ensures ReplaceFrom([x], from) == EscapeChar(x)
    decreases 5 - from
  {
    if from < 5 {
      var c := EscapeOrder(from);
      ReplaceCharOne(x, c, EscapeChar(c));
      if x == c {
        var e := EscapeChar(c);
        assert forall k :: from < k < 5 ==> EscapeOrder(k) !in e;
        ReplaceFromAbsent(e, from + 1);
      } else {
        EscapeCharChain(x, from + 1);
      }
    } else {
      assert x != EscapeOrder(0) && x != EscapeOrder(1) && x != EscapeOrder(2);
      assert x != EscapeOrder(3) && x != EscapeOrder(4);
    }
  }

  /** The five replacements in a row act on each character independently. */
  lemma {:induction false} EscapeHtmlEach(s: string)
    ensures EscapeHtml(Some(s)) == EscapeEach(s)
    decreases |s|
  {
    if s != [] {
      assert s == [s[0]] + s[1..];
      ReplaceFromAppend([s[0]], s[1..], 0);
      EscapeCharChain(s[0], 0);
      EscapeHtmlEach(s[1..]);
    }
  }

  /** Reading the entities back: the inverse of EscapeEach. */
  function Unescape(s: string): string
    decreases |s|
  {
    if s == [] then []
    else if "&amp;" <= s then "&" + Unescape(s[5..])
    else if "&lt;" <= s then "<" + Unescape(s[4..])
    else if "&gt;" <= s then ">" + Unescape(s[4..])
    else if "&quot;" <= s then "\"" + Unescape(s[6..])
    else if "&#039;" <= s then "'" + Unescape(s[6..])
    else [s[0]] + Unescape(s[1..])
  }

  lemma UnescapeStep(c: char, rest: string)
    ensures Unescape(EscapeChar(c) + rest) == [c] + Unescape(rest)
  {
    var e := EscapeChar(c) + rest;
    if c == '&' {
      assert "&amp;" <= e && e[5..] == rest;
    } else if c == '<' {
      assert e[1] == 'l';
      assert "&lt;" <= e && e[4..] == rest;
    } else if c == '>' {
      assert e[1] == 'g';
      assert "&gt;" <= e && e[4..] == rest;
    } else if c == '"' {
      assert e[1] == 'q';
      assert "&quot;" <= e && e[6..] == rest;
    } else if c == '\'' {
      assert e[1] == '#';
      assert "&#039;" <= e && e[6..] == rest;
    } else {
      assert e == [c] + rest;
      UnescapePlain(c, rest);
    }
  }

  lemma UnescapePlain(c: char, rest: string)
    requires c != '&'
    ensures Unescape([c] + rest) == [c] + Unescape(rest)
  {
    var e := [c] + rest;
    assert e[0] == c && e[1..] == rest;
  }

  /** Escaping loses nothing: the original text can be read back. */
  lemma {:induction false} EscapeHtmlRoundTrip(s: string)
    ensures Unescape(EscapeHtml(Some(s))) == s
    decreases |s|
  {
    EscapeHtmlEach(s);
    EscapeEachRoundTrip(s);
  }

  lemma {:induction false} EscapeEachRoundTrip(s: string)
    ensures Unescape(EscapeEach(s)) == s
    decreases |s|
  {
    if s != [] {
      EscapeEachRoundTrip(s[1..]);
      UnescapeStep(s[0], EscapeEach(s[1..]));
    }
  }

  /** One of the five entities opens the text at `i`. */
  predicate EntityAt(r: string, i: nat)
    requires i <= |r|
  {
    var tail := r[i..];
    "&amp;" <= tail || "&lt;" <= tail || "&gt;" <= tail || "&quot;" <= tail || "&#039;" <= tail
  }

  /** Every '&' of the text is the start of an entity. */
  predicate AmpersandsOpenEntities(r: string) {
    forall i :: 0 <= i < |r| && r[i] == '&' ==> EntityAt(r, i)
  }

  /** The escaped text holds no raw markup character, and every '&' in it opens an entity. */
  lemma {:induction false} EscapeHtmlSafe(unsafe: Option<string>)
    ensures var r := EscapeHtml(unsafe);
      '<' !in r && '>' !in r && '"' !in r && '\'' !in r
    ensures AmpersandsOpenEntities(EscapeHtml(unsafe))
    ensures unsafe.None? ==> EscapeHtml(unsafe) == ""
  {
    if unsafe.Some? {
      EscapeHtmlEach(unsafe.value);
      EscapeEachSafe(unsafe.value);
    }
  }

  lemma {:induction false} EscapeEachSafe(s: string)
    ensures var r := EscapeEach(s);
      '<' !in r && '>' !in r && '"' !in r && '\'' !in r
    ensures AmpersandsOpenEntities(EscapeEach(s))
    decreases |s|
  {
    if s != [] {
      EscapeEachSafe(s[1..]);
      assert forall x :: x in EscapeChar(s[0]) ==> x != '<' && x != '>' && x != '"' && x != '\'';
      EntityThenEscaped(s[0], EscapeEach(s[1..]));
    }
  }

  /** Prefixing one escaped character keeps every '&' at the start of an entity. */
  lemma EntityThenEscaped(c: char, t: string)
    requires AmpersandsOpenEntities(t)
    ensures AmpersandsOpenEntities(EscapeChar(c) + t)
  {
    var e := EscapeChar(c);
    var r := e + t;
    assert forall k :: 0 < k < |e| ==> e[k] != '&';
    forall i | 0 <= i < |r| && r[i] == '&'
      ensures EntityAt(r, i)
    {
      if i < |e| {
        assert i == 0 && e <= r[i..];
      } else {
        assert r[i..] == t[i - |e|..] && t[i - |e|] == '&';
        assert EntityAt(t, i - |e|);
      }
    }
  }

  // ------------------------------------------------------------ security posture

  /** One recorded deep-scan result of a port. */
  datatype ScanResult = ScanResult(port: int, vulnerable: bool, severity: string)

  /** `host.deepAudit`: the results seen so far and the two counters shown on the card. */
  datatype DeepAudit = DeepAudit(history: seq<ScanResult>, vulnerabilities: int, warnings: int)

  /** The parts of a host the badge looks at; `nmapVuln` is a saved nmap vulnerability scan. */
  datatype CardHost = CardHost(ip: string, ports: seq<int>, deepAudit: Option<DeepAudit>, nmapVuln: bool)

  datatype Badge = Badge(posture: string, badgeClass: string, icon: string)

  const StopIcon: string := "\U{1F6D1}"
  const WarnIcon: string := "\U{26A0}\U{FE0F}"
  const ShieldIcon: string := "\U{1F6E1}\U{FE0F}"
  const QuestionIcon: string := "\U{2754}"

  const RiskyPorts: set<int> := {21, 23, 3306, 1433, 27017}
  const ExposedPorts: set<int> := {80, 445, 135}

  predicate HasAny(ports: seq<int>, which: set<int>) {
    exists p :: p in ports && p in which
  }

  /** The port-only posture, used when nothing was audited. */
  function PortPosture(ports: seq<int>): Badge {
    if HasAny(ports, RiskyPorts) then Badge("Risky Ports", "danger", StopIcon)
    else if HasAny(ports, ExposedPorts) then Badge("Exposed Services", "warning", WarnIcon)
    else Badge("Unscanned", "secondary", QuestionIcon)
  }

  /** `getSecurityBadgeData`. */
  function SecurityBadge(h: CardHost): (b: Badge)
    ensures b.badgeClass in {"danger", "warning", "success", "secondary"}
    ensures b.badgeClass == "danger" <==> b.icon == StopIcon
    ensures b.badgeClass == "warning" <==> b.icon == WarnIcon
    ensures b.badgeClass == "success" <==> b.icon == ShieldIcon
  {
    match h.deepAudit
    case Some(a) =>
      if a.vulnerabilities > 0 then Badge(NatToString(a.vulnerabilities) + " Critical/High CVEs", "danger", StopIcon)
      else if a.warnings > 0 then Badge(NatToString(a.warnings) + " Medium/Low CVEs", "warning", WarnIcon)
      else if |a.history| > 0 || h.nmapVuln then Badge("Audited Secure", "success", ShieldIcon)
      else PortPosture(h.ports)
    case None =>
      if h.nmapVuln then Badge("Audited Secure", "success", ShieldIcon)
      else PortPosture(h.ports)
  }

  function Vulns(h: CardHost): int { if h.deepAudit.Some? then h.deepAudit.value.vulnerabilities else 0 }
  function Warns(h: CardHost): int { if h.deepAudit.Some? then h.deepAudit.value.warnings else 0 }
  predicate Audited(h: CardHost) { (h.deepAudit.Some? && |h.deepAudit.value.history| > 0) || h.nmapVuln }

  /**
   * Audit findings outrank everything: critical ones, then warnings, then a
   * clean audit; only an unaudited host is judged by its ports, risky ports
   * before exposed ones.
   */
  lemma SecurityBadgePrecedence(h: CardHost)
    ensures var b := SecurityBadge(h);
      && (b.badgeClass == "danger" <==> Vulns(h) > 0 || (Warns(h) <= 0 && !Audited(h) && HasAny(h.ports, RiskyPorts)))
      && (Vulns(h) > 0 ==> b.icon == StopIcon)
      && (Vulns(h) <= 0 && Warns(h) > 0 ==> b.badgeClass == "warning")
      && (Vulns(h) <= 0 && Warns(h) <= 0 ==>
            (b.posture == "Audited Secure" <==> Audited(h)))
      && (Vulns(h) <= 0 && Warns(h) <= 0 && !Audited(h) ==> b == PortPosture(h.ports))
      && (b.posture == "Unscanned" ==> !HasAny(h.ports, RiskyPorts) && !HasAny(h.ports, ExposedPorts))
  {
  }

  // ------------------------------------------------------------ CVSS severity

  /** The CVSS bands of the vulners output; `None` is a score `parseFloat` could not read (NaN). */
  function CvssSeverity(score: Option<real>): (s: string)
    ensures s in {"critical", "high", "medium", "low"}
    ensures s == "critical" <==> score.Some? && score.value >= 9.0
    ensures s == "high" <==> score.Some? && 7.0 <= score.value < 9.0
    ensures s == "medium" <==> score.Some? && 4.0 <= score.value < 7.0
    ensures s == "low" <==> score.None? || score.value < 4.0
  {
    if score.Some? && score.value >= 9.0 then "critical"
    else if score.Some? && score.value >= 7.0 then "high"
    else if score.Some? && score.value >= 4.0 then "medium"
    else "low"
  }

  function SeverityRank(s: string): int {
    if s == "critical" then 3 else if s == "high" then 2 else if s == "medium" then 1 else 0
  }

  /** A higher score never gets a milder severity. */
  lemma CvssSeverityMonotone(a: real, b: real)
    requires a <= b
    ensures SeverityRank(CvssSeverity(Some(a))) <= SeverityRank(CvssSeverity(Some(b)))
  {
  }

  // ------------------------------------------------------------ deep-scan results

  /** A streamed deep-scan result for one port of one host. */
  datatype DeepResult = DeepResult(ip: string, result: ScanResult)

  function CountWhere(history: seq<ScanResult>, severity: string): nat
    decreases |history|
  {
    if history == [] then 0
    else
      var last := history[|history| - 1];
      CountWhere(history[..|history| - 1], severity) + (if last.vulnerable && last.severity == severity then 1 else 0)
  }

  predicate PortRecorded(history: seq<ScanResult>, port: int) {
    exists k :: 0 <= k < |history| && history[k].port == port
  }

  predicate DistinctPorts(history: seq<ScanResult>) {
    forall i, j :: 0 <= i < j < |history| ==> history[i].port != history[j].port
  }

  /**
   * The audit agrees with its history: each port recorded once, and the
   * counters equal the vulnerable critical and warning results.
   */
  predicate AuditConsistent(a: DeepAudit) {
    && DistinctPorts(a.history)
    && a.vulnerabilities == CountWhere(a.history, "critical")
    && a.warnings == CountWhere(a.history, "warning")
  }

  /** The audit after a result for its host: a port already recorded is ignored. */
  function Record(a: DeepAudit, r: ScanResult): (a': DeepAudit)
    ensures a.history <= a'.history && |a'.history| <= |a.history| + 1
    ensures PortRecorded(a'.history, r.port)
    ensures a.vulnerabilities <= a'.vulnerabilities && a.warnings <= a'.warnings
  {
    if PortRecorded(a.history, r.port) then a
    else
      var h := a.history + [r];
      assert h[|h| - 1] == r;
      DeepAudit(h,
                   a.vulnerabilities + (if r.vulnerable && r.severity == "critical" then 1 else 0),
                   a.warnings + (if r.vulnerable && r.severity == "warning" then 1 else 0))
  }

  /** Recording keeps the audit consistent with its history. */
  lemma RecordKeepsConsistent(a: DeepAudit, r: ScanResult)
    requires AuditConsistent(a)
    ensures AuditConsistent(Record(a, r))
    ensures PortRecorded(Record(a, r).history, r.port)
    ensures PortRecorded(a.history, r.port) ==> Record(a, r) == a
    ensures !PortRecorded(a.history, r.port) ==> Record(a, r).history == a.history + [r]
  {
    if !PortRecorded(a.history, r.port) {
      var h := a.history + [r];
      assert h[..|h| - 1] == a.history;
      assert h[|h| - 1] == r;
    } else {
      var k :| 0 <= k < |a.history| && a.history[k].port == r.port;
    }
  }

  /** A consistent audit shows a danger badge exactly when a critical vulnerability was found. */
  lemma ConsistentDanger(h: CardHost)
    requires h.deepAudit.Some? && AuditConsistent(h.deepAudit.value)
    ensures SecurityBadge(h).badgeClass == "danger" <==>
      CountWhere(h.deepAudit.value.history, "critical") > 0
      || (CountWhere(h.deepAudit.value.history, "warning") == 0 && !Audited(h) && HasAny(h.ports, RiskyPorts))
  {
    SecurityBadgePrecedence(h);
  }

  /** The first index of the host with this IP (`findIndex`). */
  function FindHost(hosts: seq<CardHost>, ip: string): (r: Option<nat>)
    ensures r.Some? ==> r.value < |hosts| && hosts[r.value].ip == ip
    ensures r.Some? ==> forall k :: 0 <= k < r.value ==> hosts[k].ip != ip
    ensures r.None? ==> forall k :: 0 <= k < |hosts| ==> hosts[k].ip != ip
    decreases |hosts|
  {
    if hosts == [] then None
    else if hosts[0].ip == ip then Some(0)
    else
      match FindHost(hosts[1..], ip)
      case None => None
      case Some(k) => Some(k + 1)
  }

  /**
   * The deduplicating push of `onDeepScanResult`: the history is searched for
   * the port, and only a new port is appended and counted.
   */
  method RecordResult(a: DeepAudit, r: ScanResult) returns (a': DeepAudit)
    ensures a' == Record(a, r)
  {
    var dup := false;
    for k := 0 to |a.history|
      invariant dup <==> exists j :: 0 <= j < k && a.history[j].port == r.port
    {
      if a.history[k].port == r.port {
        dup := true;
      }
    }
    a' := a;
    if !dup {
      a' := DeepAudit(a.history + [r],
                      a.vulnerabilities + (if r.vulnerable && r.severity == "critical" then 1 else 0),
                      a.warnings + (if r.vulnerable && r.severity == "warning" then 1 else 0));
    }
  }

  ghost predicate AuditsConsistent(hosts: seq<CardHost>) {
    forall k :: 0 <= k < |hosts| && hosts[k].deepAudit.Some? ==> AuditConsistent(hosts[k].deepAudit.value)
  }

  /** Replacing one host by a host with a consistent audit keeps every audit consistent. */
  lemma SetKeepsAudits(hosts: seq<CardHost>, i: nat, h: CardHost)
    requires AuditsConsistent(hosts) && i < |hosts|
    requires h.deepAudit.Some? && AuditConsistent(h.deepAudit.value)
    ensures AuditsConsistent(hosts[i := h])
  {
  }

  /** The renderer's host list as far as deep-scan results are concerned. */
  class HostList {
    var hosts: seq<CardHost>

    /** Every audit of the list is consistent with its history. */
    ghost predicate Valid()
      reads this
    {
      AuditsConsistent(hosts)
    }

    constructor(initial: seq<CardHost>)
      requires forall h :: h in initial && h.deepAudit.Some? ==> AuditConsistent(h.deepAudit.value)
      ensures Valid() && hosts == initial
    {
      hosts := initial;
    }

    /**
     * The `onDeepScanResult` handler: a result for an unknown IP is dropped;
     * otherwise the first host with that IP gets an (empty, if it had none)
     * audit and records the result unless its port is already there.
     */
    method OnDeepScanResult(data: DeepResult)
      requires Valid()
      modifies this
      ensures Valid()
      ensures |hosts| == |old(hosts)|
      ensures FindHost(old(hosts), data.ip).None? ==> hosts == old(hosts)
      ensures FindHost(old(hosts), data.ip).Some? ==>
        var i := FindHost(old(hosts), data.ip).value;
        var h := old(hosts)[i];
        var a := if h.deepAudit.Some? then h.deepAudit.value else DeepAudit([], 0, 0);
        hosts == old(hosts)[i := h.(deepAudit := Some(Record(a, data.result)))]
    {
      var idx := FindHost(hosts, data.ip);
      if idx.None? {
        return;
      }
      var i := idx.value;
      var h := hosts[i];
      var a := if h.deepAudit.Some? then h.deepAudit.value else DeepAudit([], 0, 0);
      RecordKeepsConsistent(a, data.result);
      a := RecordResult(a, data.result);
      SetKeepsAudits(hosts, i, h.(deepAudit := Some(a)));
      hosts := hosts[i := h.(deepAudit := Some(a))];
    }
  }
}
