/**
 * Service fingerprinting: for every deep-scanned port a fingerprint is built
 * by five detectors run in a fixed order over the banner and details, a
 * port-table fallback when none of them gave any confidence, and a cap.
 * Confidence is in hundredths.
 */
module Fingerprinting {
  import opened Common
  import opened Text
  import opened Models
  import opened FingerprintPatterns

  /** The fingerprint every port starts from. */
  function Blank(port: U16): (fp: Fingerprint)
    ensures fp.port == port && fp.confidence == 0 && fp.evidence == []
  {
    Fingerprint(port, "unknown", "", "", 0, [], None, None)
  }

  /** The raw banner (empty when absent), a space, then the details. */
  function Combined(p: DeepScanPort): string {
    (if p.rawBanner.Some? then p.rawBanner.value else "") + " " + p.details
  }

  // ---------------------------------------------------------------- HTTP

  /**
   * The `Server:` header rule: a known web server gives its lower-cased name,
   * its version and 0.9; any other value becomes the product at 0.7.
   */
  function ServerStep(text: string, fp: Fingerprint): (r: Fingerprint)
    ensures r.port == fp.port && fp.evidence <= r.evidence
    ensures InRange(fp) ==> InRange(r)
    ensures ServerHeader(text).None? ==> r == fp
    ensures ServerHeader(text).Some? ==>
      var server := TrimRust(ServerHeader(text).value);
      && r.protocol == "http" && r.evidence == fp.evidence + ["Server: " + server]
      && r.tlsCert == fp.tlsCert
      && (KnownWebServer(server).Some? ==>
            r.product == KnownWebServer(server).value.0 && r.version == KnownWebServer(server).value.1
            && r.confidence == 90)
      && (KnownWebServer(server).None? ==>
            r.product == server && r.version == fp.version && r.confidence == 70)
  {
    match ServerHeader(text)
    case None => fp
    case Some(cap) =>
      var server := TrimRust(cap);
      var fp1 := fp.(protocol := "http", evidence := fp.evidence + ["Server: " + server]);
      match KnownWebServer(server)
      case Some(pv) => fp1.(product := pv.0, version := pv.1, confidence := 90)
      case None => fp1.(product := server, confidence := 70)
  }

  /**
   * The `X-Powered-By:` rule: a confidence already set is raised by 0.05 up
   * to 0.95; otherwise the header value becomes the product at 0.6.
   */
  function PoweredByStep(text: string, fp: Fingerprint): (r: Fingerprint)
    ensures r.port == fp.port && fp.evidence <= r.evidence
    ensures InRange(fp) ==> InRange(r)
    ensures PoweredByHeader(text).None? ==> r == fp
    ensures PoweredByHeader(text).Some? ==>
      var powered := TrimRust(PoweredByHeader(text).value);
      && r.protocol == "http" && r.evidence == fp.evidence + ["X-Powered-By: " + powered]
      && r.version == fp.version && r.tlsCert == fp.tlsCert
      && (fp.confidence > 0 ==> r.product == fp.product && r.confidence == Min(fp.confidence + 5, 95))
      && (fp.confidence <= 0 ==> r.product == powered && r.confidence == 60)
    ensures fp.confidence >= 0 ==> (r.confidence > 0 <==> fp.confidence > 0 || PoweredByHeader(text).Some?)
  {
    match PoweredByHeader(text)
    case None => fp
    case Some(cap) =>
      var powered := TrimRust(cap);
      var fp1 := fp.(protocol := "http", evidence := fp.evidence + ["X-Powered-By: " + powered]);
      if fp1.confidence > 0 then fp1.(confidence := Min(fp1.confidence + 5, 95))
      else fp1.(product := powered, confidence := 60)
  }

  /** The applications a title can name, in the order the source tries them. */
  const TitleApps: seq<string> := ["wordpress", "grafana", "jenkins"]

  /** The application a lower-cased title names, with its confidence floor. */
  function TitleApp(titleLower: string): (r: Option<(string, int)>)
    ensures r.None? <==>
      !Contains(titleLower, "wordpress") && !Contains(titleLower, "grafana") && !Contains(titleLower, "jenkins")
    ensures r.Some? ==> r.value.0 in TitleApps && Contains(titleLower, r.value.0)
    ensures r.Some? ==> r.value.1 == if r.value.0 == "wordpress" then 80 else 85
    ensures r.Some? && r.value.0 != "wordpress" ==> !Contains(titleLower, "wordpress")
  {
    if Contains(titleLower, "wordpress") then Some(("wordpress", 80))
    else if Contains(titleLower, "grafana") then Some(("grafana", 85))
    else if Contains(titleLower, "jenkins") then Some(("jenkins", 85))
    else None
  }

  /**
   * The HTML `<title>` rule: a title naming a known application sets the
   * product and raises the confidence to that application's floor.
   */
  function TitleStep(text: string, fp: Fingerprint): (r: Fingerprint)
    ensures r.port == fp.port && fp.evidence <= r.evidence
    ensures InRange(fp) ==> InRange(r)
    ensures r.protocol == fp.protocol && r.version == fp.version && r.tlsCert == fp.tlsCert
    ensures HtmlTitle(text).None? ==> r == fp
    ensures HtmlTitle(text).Some? ==>
      var title := TrimRust(HtmlTitle(text).value);
      && r.evidence == fp.evidence + ["HTML title: " + title]
      && (TitleApp(Lower(title)).None? ==> r.product == fp.product && r.confidence == fp.confidence)
      && (TitleApp(Lower(title)).Some? ==>
            r.product == TitleApp(Lower(title)).value.0
            && r.confidence == Max(fp.confidence, TitleApp(Lower(title)).value.1))
    ensures fp.confidence >= 0 ==> (r.confidence > 0 <==> fp.confidence > 0 || TitleNamesApp(text))
  {
    match HtmlTitle(text)
    case None => fp
    case Some(cap) =>
      var title := TrimRust(cap);
      var fp1 := fp.(evidence := fp.evidence + ["HTML title: " + title]);
      match TitleApp(Lower(title))
      case None => fp1
      case Some(app) => fp1.(product := app.0, confidence := Max(fp1.confidence, app.1))
  }

  /**
   * `try_http_fingerprint`: Server, then X-Powered-By, then title.  Either
   * header makes the protocol "http"; a title naming an application decides
   * the product; otherwise the Server value decides it, boosted by 0.05 when
   * X-Powered-By is present too; and X-Powered-By alone gives 0.6.
   */
  function TryHttp(text: string, fp: Fingerprint): (r: Fingerprint)
    ensures r.port == fp.port && fp.evidence <= r.evidence
    ensures InRange(fp) ==> InRange(r)
    ensures r.tlsCert == fp.tlsCert
    ensures r.protocol == if ServerHeader(text).Some? || PoweredByHeader(text).Some? then "http" else fp.protocol
    ensures fp.confidence >= 0 ==>
      (r.confidence > 0 <==> fp.confidence > 0 || ServerHeader(text).Some? || PoweredByHeader(text).Some?
                             || TitleNamesApp(text))
    ensures TitleNamesApp(text) ==>
      var app := TitleApp(Lower(TrimRust(HtmlTitle(text).value))).value;
      r.product == app.0 && r.confidence >= app.1
    ensures ServerHeader(text).Some? && !TitleNamesApp(text) ==>
      var server := TrimRust(ServerHeader(text).value);
      var boost := if PoweredByHeader(text).Some? then 5 else 0;
      && (KnownWebServer(server).Some? ==>
            r.product == KnownWebServer(server).value.0 && r.version == KnownWebServer(server).value.1
            && r.confidence == 90 + boost)
      && (KnownWebServer(server).None? ==>
            r.product == server && r.version == fp.version && r.confidence == 70 + boost)
    ensures ServerHeader(text).None? && PoweredByHeader(text).Some? && fp.confidence == 0 && !TitleNamesApp(text) ==>
      r.product == TrimRust(PoweredByHeader(text).value) && r.version == fp.version && r.confidence == 60
    ensures ServerHeader(text).None? && PoweredByHeader(text).None? && !TitleNamesApp(text) ==>
      r.product == fp.product && r.version == fp.version && r.confidence == fp.confidence
  {
    TitleStep(text, PoweredByStep(text, ServerStep(text, fp)))
  }

  // ---------------------------------------------------------------- SSH

  /**
   * `try_ssh_fingerprint`: OpenSSH with its version at 0.95, Dropbear at 0.9,
   * any other software identification as the product at 0.8.
   */
  function TrySsh(text: string, fp: Fingerprint): (r: Fingerprint)
    ensures r.port == fp.port && fp.evidence <= r.evidence
    ensures InRange(fp) ==> InRange(r)
    ensures SshBanner(text).None? ==> r == fp
    ensures SshBanner(text).Some? ==>
      var banner := SshBanner(text).value;
      var openssh := VersionAfter(banner, "openssh", OptionalSep, IsOpenSshVersionChar);
      var dropbear := VersionAfter(banner, "dropbear", OptionalSep, IsVersionChar);
      && r.protocol == "ssh" && r.evidence == fp.evidence + ["SSH banner: " + banner]
      && r.tlsCert == fp.tlsCert
      && (openssh.Some? ==> r.product == "OpenSSH" && r.version == openssh.value && r.confidence == 95)
      && (openssh.None? && ContainsCI(banner, "dropbear") ==>
            r.product == "Dropbear" && r.confidence == 90
            && r.version == if dropbear.Some? then dropbear.value else "")
      && (openssh.None? && !ContainsCI(banner, "dropbear") ==>
            r.product == banner && r.version == fp.version && r.confidence == 80)
  {
    match SshBanner(text)
    case None => fp
    case Some(banner) =>
      var fp1 := fp.(protocol := "ssh", evidence := fp.evidence + ["SSH banner: " + banner]);
      match VersionAfter(banner, "openssh", OptionalSep, IsOpenSshVersionChar)
      case Some(v) => fp1.(product := "OpenSSH", version := v, confidence := 95)
      case None =>
        if ContainsCI(banner, "dropbear") then
          var v := match VersionAfter(banner, "dropbear", OptionalSep, IsVersionChar)
            case Some(v) => v
            case None => "";
          fp1.(product := "Dropbear", version := v, confidence := 90)
        else fp1.(product := banner, confidence := 80)
  }

  // ---------------------------------------------------------------- TLS

  /** A pattern's trimmed capture, or "" when it does not match. */
  function TrimmedOr(cap: Option<string>): string {
    match cap case Some(v) => TrimRust(v) case None => ""
  }

  /**
   * The certificate record the TLS detector builds from `details`: the CN
   * as subject, the trimmed issuer and expiry captures ("" when absent),
   * and nothing else.
   */
  function CertOf(cn: string, details: string): (c: TlsCertInfo)
    ensures c.subject == cn && c.daysUntilExpiry == 0 && c.validFrom == ""
    ensures c.issuer == TrimmedOr(IssuerField(details))
    ensures c.validTo == TrimmedOr(ExpiryField(details))
    ensures c.keySize.None? && c.signature.None?
  {
    var issuer := match IssuerField(details) case Some(i) => TrimRust(i) case None => "";
    var validTo := match ExpiryField(details) case Some(v) => TrimRust(v) case None => "";
    TlsCertInfo(cn, issuer, "", validTo, 0, None, None)
  }

  /**
   * The evidence lines the TLS detector adds for a captured CN: the CN, then
   * the issuer and the expiry when their patterns match, in that order.
   */
  function CertEvidence(cn: string, details: string): (ev: seq<string>)
    ensures |ev| == 1 + (if IssuerField(details).Some? then 1 else 0) + (if ExpiryField(details).Some? then 1 else 0)
    ensures ev[0] == "TLS CN: " + cn
    ensures IssuerField(details).Some? ==> ev[1] == "Issuer: " + TrimRust(IssuerField(details).value)
    ensures ExpiryField(details).Some? ==> ev[|ev| - 1] == "Expires: " + TrimRust(ExpiryField(details).value)
  {
    var c := CertOf(cn, details);
    ["TLS CN: " + cn]
    + (if IssuerField(details).Some? then ["Issuer: " + c.issuer] else [])
    + (if ExpiryField(details).Some? then ["Expires: " + c.validTo] else [])
  }

  /**
   * `try_tls_fingerprint`, which only ever reads `details`: a certificate
   * marker renames an "unknown" protocol to "tls"; a captured CN records the
   * certificate and raises the confidence to at least 0.7.
   */
  function TryTls(details: string, fp: Fingerprint): (r: Fingerprint)
    ensures r.port == fp.port && fp.evidence <= r.evidence
    ensures InRange(fp) ==> InRange(r)
    ensures r.product == fp.product && r.version == fp.version
    ensures r.protocol == if CertMarker(details) && fp.protocol == "unknown" then "tls" else fp.protocol
    ensures !CertMarker(details) ==> r == fp
    ensures CertMarker(details) && CommonName(details).None? ==>
      r.evidence == fp.evidence && r.tlsCert == fp.tlsCert && r.confidence == fp.confidence
    ensures CertMarker(details) && CommonName(details).Some? ==>
      var cn := TrimRust(CommonName(details).value);
      && r.tlsCert == Some(CertOf(cn, details))
      && r.evidence == fp.evidence + CertEvidence(cn, details)
      && r.confidence == Max(fp.confidence, 70)
    ensures fp.confidence >= 0 ==>
      (r.confidence > 0 <==> fp.confidence > 0 || (CertMarker(details) && CommonName(details).Some?)) {
    if !CertMarker(details) then fp
    else
      var fp1 := if fp.protocol == "unknown" then fp.(protocol := "tls") else fp;
      match CommonName(details)
      case None => fp1
      case Some(cap) =>
        var cn := TrimRust(cap);
        fp1.(evidence := fp1.evidence + CertEvidence(cn, details),
             tlsCert := Some(CertOf(cn, details)),
             confidence := Max(fp1.confidence, 70))
  }

  // ---------------------------------------------------------------- SMTP

  /**
   * `try_smtp_fingerprint`: Postfix at 0.9, Exim with its version at 0.9,
   * Microsoft Exchange at 0.85, any other greeting as the product at 0.7.
   */
  function TrySmtp(text: string, fp: Fingerprint): (r: Fingerprint)
    ensures r.port == fp.port && fp.evidence <= r.evidence
    ensures InRange(fp) ==> InRange(r)
    ensures r.tlsCert == fp.tlsCert
    ensures SmtpGreeting(text).None? ==> r == fp
    ensures SmtpGreeting(text).Some? ==>
      var banner := TrimRust(SmtpGreeting(text).value);
      var exim := VersionAfter(banner, "exim", Spaces, IsVersionChar);
      && r.protocol == "smtp" && r.evidence == fp.evidence + ["SMTP banner: " + banner]
      && (ContainsCI(banner, "postfix") ==>
            r.product == "Postfix" && r.version == fp.version && r.confidence == 90)
      && (!ContainsCI(banner, "postfix") && exim.Some? ==>
            r.product == "Exim" && r.version == exim.value && r.confidence == 90)
      && (!ContainsCI(banner, "postfix") && exim.None? && MicrosoftEsmtp(banner) ==>
            r.product == "Microsoft Exchange" && r.version == fp.version && r.confidence == 85)
      && (!ContainsCI(banner, "postfix") && exim.None? && !MicrosoftEsmtp(banner) ==>
            r.product == banner && r.version == fp.version && r.confidence == 70)
  {
    match SmtpGreeting(text)
    case None => fp
    case Some(cap) =>
      var banner := TrimRust(cap);
      var fp1 := fp.(protocol := "smtp", evidence := fp.evidence + ["SMTP banner: " + banner]);
      if ContainsCI(banner, "postfix") then fp1.(product := "Postfix", confidence := 90)
      else
        match VersionAfter(banner, "exim", Spaces, IsVersionChar)
        case Some(v) => fp1.(product := "Exim", version := v, confidence := 90)
        case None =>
          if MicrosoftEsmtp(banner) then fp1.(product := "Microsoft Exchange", confidence := 85)
          else fp1.(product := banner, confidence := 70)
  }

  // ---------------------------------------------------------------- FTP

  /**
   * `try_ftp_fingerprint`; the version patterns read the whole text:
   * vsftpd or ProFTPD with its version at 0.9, else the matched keyword as
   * the product at 0.7.
   */
  function TryFtp(text: string, fp: Fingerprint): (r: Fingerprint)
    ensures r.port == fp.port && fp.evidence <= r.evidence
    ensures InRange(fp) ==> InRange(r)
    ensures r.tlsCert == fp.tlsCert
    ensures FtpKeyword(text).None? ==> r == fp
    ensures FtpKeyword(text).Some? ==>
      var matched := FtpKeyword(text).value;
      var vsftpd := VersionAfter(text, "vsftpd", Spaces, IsVersionChar);
      var proftpd := VersionAfter(text, "proftpd", Spaces, IsVersionChar);
      && r.protocol == "ftp" && r.evidence == fp.evidence + ["FTP banner match: " + matched]
      && (vsftpd.Some? ==> r.product == "vsftpd" && r.version == vsftpd.value && r.confidence == 90)
      && (vsftpd.None? && proftpd.Some? ==>
            r.product == "ProFTPD" && r.version == proftpd.value && r.confidence == 90)
      && (vsftpd.None? && proftpd.None? ==>
            r.product == matched && r.version == fp.version && r.confidence == 70)
  {
    match FtpKeyword(text)
    case None => fp
    case Some(matched) =>
      var fp1 := fp.(protocol := "ftp", evidence := fp.evidence + ["FTP banner match: " + matched]);
      match VersionAfter(text, "vsftpd", Spaces, IsVersionChar)
      case Some(v) => fp1.(product := "vsftpd", version := v, confidence := 90)
      case None =>
        match VersionAfter(text, "proftpd", Spaces, IsVersionChar)
        case Some(v) => fp1.(product := "ProFTPD", version := v, confidence := 90)
        case None => fp1.(product := matched, confidence := 70)
  }

  // ---------------------------------------------------------------- fallback

  /** The static port table: protocol, product and confidence. */
  function PortTable(port: U16): (r: (string, string, int))
    ensures 10 <= r.2 <= 30
  {
    match port
    case 21 => ("ftp", "FTP", 20)
    case 22 => ("ssh", "SSH", 20)
    case 23 => ("telnet", "Telnet", 20)
    case 25 => ("smtp", "SMTP", 20)
    case 53 => ("dns", "DNS", 20)
    case 80 => ("http", "HTTP", 15)
    case 110 => ("pop3", "POP3", 20)
    case 143 => ("imap", "IMAP", 20)
    case 443 => ("https", "HTTPS", 15)
    case 445 => ("smb", "SMB", 25)
    case 993 => ("imaps", "IMAPS", 20)
    case 995 => ("pop3s", "POP3S", 20)
    case 1433 => ("mssql", "Microsoft SQL Server", 30)
    case 1723 => ("pptp", "PPTP VPN", 25)
    case 3306 => ("mysql", "MySQL", 30)
    case 3389 => ("rdp", "RDP", 30)
    case 5432 => ("postgresql", "PostgreSQL", 30)
    case 5900 => ("vnc", "VNC", 25)
    case 6379 => ("redis", "Redis", 30)
    case 8080 => ("http-proxy", "HTTP Proxy", 10)
    case 8443 => ("https-alt", "HTTPS Alt", 10)
    case 27017 => ("mongodb", "MongoDB", 30)
    case _ => ("unknown", "Unknown", 10)
  }

  /** The ports the table lists. */
  const TablePorts: set<int> :=
    {21, 22, 23, 25, 53, 80, 110, 143, 443, 445, 993, 995, 1433, 1723, 3306, 3389,
     5432, 5900, 6379, 8080, 8443, 27017}

  lemma PortTableDefault(port: U16)
    ensures PortTable(port).0 == "unknown" <==> port !in TablePorts
    ensures port !in TablePorts ==> PortTable(port) == ("unknown", "Unknown", 10)
  {
  }

  /** `apply_port_heuristic`. */
  function ApplyPortHeuristic(port: U16, fp: Fingerprint): (r: Fingerprint)
    ensures r.port == fp.port && fp.evidence <= r.evidence
    ensures r.version == fp.version && r.tlsCert == fp.tlsCert
    ensures 10 <= r.confidence <= 30
  {
    var entry := PortTable(port);
    fp.(protocol := entry.0, product := entry.1, confidence := entry.2,
        evidence := fp.evidence + ["Port heuristic: " + NatToString(port) + "/" + entry.0])
  }

  // ---------------------------------------------------------------- one port

  /** The fingerprint after the five detectors, in their fixed order. */
  function Detected(p: DeepScanPort): (r: Fingerprint)
    ensures r.port == p.port && InRange(r)
  {
    var text := Combined(p);
    TryFtp(text, TrySmtp(text, TryTls(p.details, TrySsh(text, TryHttp(text, Blank(p.port))))))
  }

  /** The fingerprint before the cap. */
  function Uncapped(p: DeepScanPort): (r: Fingerprint)
    ensures r.port == p.port && 10 <= r.confidence <= 95
    ensures Detected(p).confidence != 0 ==> r == Detected(p)
  {
    var fp := Detected(p);
    if fp.confidence == 0 then ApplyPortHeuristic(p.port, fp) else fp
  }

  /** The fingerprint `analyze` produces for one port. */
  function FingerprintOf(p: DeepScanPort): (r: Fingerprint)
    ensures r.port == p.port && 10 <= r.confidence <= 95
    ensures r == Uncapped(p)
  {
    var fp := Uncapped(p);
    if fp.confidence > 99 then fp.(confidence := 99) else fp
  }

  /** The fingerprints of a sequence of ports, one per port, in order. */
  function FingerprintAll(ports: seq<DeepScanPort>): (fps: seq<Fingerprint>)
    ensures |fps| == |ports|
  {
    MapSeq(FingerprintOf, ports)
  }

  /** The body of the `analyze` loop for one port. */
  method FingerprintPort(portData: DeepScanPort) returns (fp: Fingerprint)
    ensures fp == FingerprintOf(portData)
  {
    fp := Blank(portData.port);
    var banner := if portData.rawBanner.Some? then portData.rawBanner.value else "";
    var combined := banner + " " + portData.details;
    fp := TryHttp(combined, fp);
    fp := TrySsh(combined, fp);
    fp := TryTls(portData.details, fp);
    fp := TrySmtp(combined, fp);
    fp := TryFtp(combined, fp);
    assert combined == Combined(portData);
    if fp.confidence == 0 {
      fp := ApplyPortHeuristic(portData.port, fp);
    }
    if fp.confidence > 99 {
      fp := fp.(confidence := 99);
    }
  }

  /**
   * `analyze`: one fingerprint per port, in port order.  The host is not read.
   */
  method Analyze(host: Host, ports: seq<DeepScanPort>) returns (fps: seq<Fingerprint>)
    ensures fps == FingerprintAll(ports)
  {
    fps := [];
    var i := 0;
    while i < |ports|
      invariant 0 <= i <= |ports|
      invariant fps == FingerprintAll(ports[..i])
    {
      var fp := FingerprintPort(ports[i]);
      MapSeqSnoc(FingerprintOf, ports, i);
      fps := fps + [fp];
      i := i + 1;
    }
    assert ports[..i] == ports;
  }

  /**
   * The result of `analyze` has exactly one entry per port, in input order,
   * carrying that port's number, with confidence within 0.1..0.95.
   */
  lemma FingerprintAllEntry(ports: seq<DeepScanPort>, i: nat)
    requires i < |ports|
    ensures |FingerprintAll(ports)| == |ports|
    ensures FingerprintAll(ports)[i] == FingerprintOf(ports[i])
    ensures FingerprintAll(ports)[i].port == ports[i].port
    ensures 10 <= FingerprintAll(ports)[i].confidence <= 95
  {
    MapSeqAt(FingerprintOf, ports, i);
    ConfidenceBounds(ports[i]);
    PortPreserved(ports[i]);
  }

  // ---------------------------------------------------------------- properties

  /**
   * Every confidence a detector sets lies in 60..95, so through the detectors
   * confidence is either still 0 or within 60..95.
   */
  predicate InRange(fp: Fingerprint) { fp.confidence == 0 || 60 <= fp.confidence <= 95 }

  /**
   * Every produced confidence lies in 10..95: the detectors never exceed 0.95,
   * so the 0.99 cap never changes anything, and the fallback gives at least 0.1.
   */
  lemma ConfidenceBounds(p: DeepScanPort)
    ensures Detected(p).confidence == 0 || 60 <= Detected(p).confidence <= 95
    ensures 10 <= Uncapped(p).confidence <= 95
    ensures FingerprintOf(p) == Uncapped(p)
  {
    var text := Combined(p);
    var f0 := Blank(p.port);
    var f1 := TryHttp(text, f0);
    var f2 := TrySsh(text, f1);
    var f3 := TryTls(p.details, f2);
    var f4 := TrySmtp(text, f3);
    var f5 := TryFtp(text, f4);
    assert InRange(f0);
    assert InRange(f1);
    assert InRange(f2);
    assert InRange(f3);
    assert InRange(f4);
    assert InRange(f5);
    assert f5 == Detected(p);
  }

  lemma PortPreserved(p: DeepScanPort)
    ensures FingerprintOf(p).port == p.port
    ensures Detected(p).evidence <= FingerprintOf(p).evidence
  {
  }

  /** The HTML title names one of the recognised applications. */
  predicate TitleNamesApp(text: string) {
    HtmlTitle(text).Some? && TitleApp(Lower(TrimRust(HtmlTitle(text).value))).Some?
  }

  /** Some detector rule that sets a confidence fires for this port. */
  predicate AnyDetectorFires(p: DeepScanPort) {
    var text := Combined(p);
    ServerHeader(text).Some? || PoweredByHeader(text).Some? || TitleNamesApp(text)
    || SshBanner(text).Some? || (CertMarker(p.details) && CommonName(p.details).Some?)
    || SmtpGreeting(text).Some? || FtpKeyword(text).Some?
  }

  /**
   * The port table is consulted exactly when no confidence-setting rule fired;
   * it then decides protocol, product and confidence, and appends one
   * "Port heuristic" evidence line.
   */
  lemma FallbackIffNothingFired(p: DeepScanPort)
    ensures Detected(p).confidence == 0 <==> !AnyDetectorFires(p)
    ensures !AnyDetectorFires(p) ==>
      var (protocol, product, confidence) := PortTable(p.port);
      var fp := FingerprintOf(p);
      fp.protocol == protocol && fp.product == product && fp.confidence == confidence
      && fp.evidence == Detected(p).evidence + ["Port heuristic: " + NatToString(p.port) + "/" + protocol]
  {
  }

  /** A later detector overwrites an earlier one: an FTP greeting wins. */
  lemma FtpOverridesEarlierDetectors(p: DeepScanPort)
    requires FtpKeyword(Combined(p)).Some?
    ensures FingerprintOf(p).protocol == "ftp"
    ensures VersionAfter(Combined(p), "vsftpd", Spaces, IsVersionChar).Some? ==>
      FingerprintOf(p).product == "vsftpd" && FingerprintOf(p).confidence == 90
  {
    FallbackIffNothingFired(p);
    ConfidenceBounds(p);
  }

  /** Without an FTP match, an SMTP greeting decides the protocol. */
  lemma SmtpWithoutFtp(p: DeepScanPort)
    requires SmtpGreeting(Combined(p)).Some? && FtpKeyword(Combined(p)).None?
    ensures FingerprintOf(p).protocol == "smtp"
  {
    FallbackIffNothingFired(p);
    ConfidenceBounds(p);
  }

  /**
   * An SSH banner decides the protocol unless a later SMTP or FTP rule fires;
   * the TLS detector only renames an "unknown" protocol.
   */
  lemma SshWithoutMailOrFtp(p: DeepScanPort)
    requires SshBanner(Combined(p)).Some?
    requires SmtpGreeting(Combined(p)).None? && FtpKeyword(Combined(p)).None?
    ensures FingerprintOf(p).protocol == "ssh"
  {
    FallbackIffNothingFired(p);
    ConfidenceBounds(p);
  }

  /** With no banner the text starts with a space, so no `^220` pattern matches. */
  lemma NoBannerNoGreeting(p: DeepScanPort)
    requires p.rawBanner.None?
    ensures SmtpGreeting(Combined(p)).None? && FtpKeyword(Combined(p)).None?
  {
    assert Combined(p)[0] == ' ';
  }
}
