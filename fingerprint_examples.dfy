/**
 * The fingerprinting engine's unit tests (fingerprint.rs, `mod tests`)
 * stated as facts about the model: for each test's port record, what the
 * fingerprint `analyze` returns for it.
 *
 * Each banner is read one pattern at a time.  The character-level facts
 * about a banner are stated on a parameter equal to it, so that the verifier
 * reads the text by index instead of unfolding the patterns on the literal.
 */
module FingerprintExamples {
  import opened Common
  import opened Text
  import opened Models
  import opened FingerprintPatterns
  import opened Fingerprinting

  /** A deep-scan record with a banner and no details, as `make_port` builds it. */
  function BannerPort(port: U16, banner: string): DeepScanPort {
    DeepScanPort(port, "", "", false, "info", Some(banner))
  }

  /** Only the HTTP rules fire: the fingerprint is theirs. */
  lemma HttpRulesDecide(p: DeepScanPort)
    requires SshBanner(Combined(p)).None? && !CertMarker(p.details)
    requires SmtpGreeting(Combined(p)).None? && FtpKeyword(Combined(p)).None?
    ensures Detected(p) == TryHttp(Combined(p), Blank(p.port))
  {
  }

  /** Only the SSH rule fires: the fingerprint is its. */
  lemma SshRuleDecides(p: DeepScanPort)
    requires ServerHeader(Combined(p)).None? && PoweredByHeader(Combined(p)).None?
    requires HtmlTitle(Combined(p)).None? && !CertMarker(p.details)
    requires SmtpGreeting(Combined(p)).None? && FtpKeyword(Combined(p)).None?
    ensures Detected(p) == TrySsh(Combined(p), Blank(p.port))
  {
  }

  /**
   * A known web server in the Server header and no other evidence: the
   * fingerprint is that server's product and version at 0.9.
   */
  lemma KnownServerReported(p: DeepScanPort)
    requires ServerHeader(Combined(p)).Some? && PoweredByHeader(Combined(p)).None?
    requires HtmlTitle(Combined(p)).None? && SshBanner(Combined(p)).None? && !CertMarker(p.details)
    requires SmtpGreeting(Combined(p)).None? && FtpKeyword(Combined(p)).None?
    requires KnownWebServer(TrimRust(ServerHeader(Combined(p)).value)).Some?
    ensures var fp := FingerprintOf(p);
      var known := KnownWebServer(TrimRust(ServerHeader(Combined(p)).value)).value;
      fp.protocol == "http" && fp.product == known.0 && fp.version == known.1 && fp.confidence == 90
  {
    var t := Combined(p);
    var f := TryHttp(t, Blank(p.port));
    assert f.confidence == 90;
    HttpRulesDecide(p);
    DetectedReported(p);
  }

  /** An SSH identification and no other evidence: the SSH rule's fingerprint is reported. */
  lemma SshBannerReported(p: DeepScanPort)
    requires ServerHeader(Combined(p)).None? && PoweredByHeader(Combined(p)).None?
    requires HtmlTitle(Combined(p)).None? && SshBanner(Combined(p)).Some? && !CertMarker(p.details)
    requires SmtpGreeting(Combined(p)).None? && FtpKeyword(Combined(p)).None?
    ensures FingerprintOf(p) == TrySsh(Combined(p), Blank(p.port))
  {
    SshRuleDecides(p);
    DetectedReported(p);
  }

  /** A detected confidence within the cap is reported unchanged. */
  lemma DetectedReported(p: DeepScanPort)
    requires 0 < Detected(p).confidence <= 99
    ensures FingerprintOf(p) == Detected(p)
  {
  }

  // ------------------------------------------------ test_http_server_header

  const NginxBanner: string := "HTTP/1.1 200 OK\r\nServer: nginx/1.25.3\r\n"
  /** The text the detectors read: the banner, a space and the empty details. */
  const NginxText: string := NginxBanner + " "

  lemma NginxServerChars(t: string)
    requires t == NginxText
    ensures |t| == 40 && t[25..37] == "nginx/1.25.3" && IsCrLf(t[37])
    ensures forall k :: 0 <= k < 7 ==> LowerChar(t[17 + k]) == "server:"[k]
    ensures forall k :: 25 <= k < 37 ==> !IsCrLf(t[k])
  {
  }

  lemma NginxBeforeServer(t: string)
    requires t == NginxText
    ensures forall q :: 0 <= q < 17 && q + 1 < |t| ==> LowerChar(t[q]) != 's' || LowerChar(t[q + 1]) != 'e'
  {
  }

  /** The Server header of the response carries nginx/1.25.3. */
  lemma NginxServerHeader(t: string)
    requires t == NginxText
    ensures ServerHeader(t) == Some("nginx/1.25.3")
  {
    NginxServerChars(t);
    NginxBeforeServer(t);
    NoLitCIBelow(t, "server:", 17);
    LitAtCIByChars(t, 17, "server:");
    RunIs(t, 24, IsRustSpace, 1);
    SpaceThenCaptureIs(t, 24, IsCrLf, 1, 12);
    FindCaptureIs(t, Literal("server:"), IsCrLf, 17);
  }

  lemma NginxVersionChars(sv: string)
    requires sv == "nginx/1.25.3"
    ensures |sv| == 12 && sv[6..12] == "1.25.3" && sv[5] == '/'
    ensures forall k :: 0 <= k < 5 ==> LowerChar(sv[k]) == "nginx"[k]
    ensures forall k :: 6 <= k < 12 ==> IsVersionChar(sv[k])
    ensures !IsRustSpace(sv[0]) && !IsRustSpace(sv[11])
  {
  }

  /** The server value is nginx 1.25.3, the first alternative of the pattern. */
  lemma NginxKnown(sv: string)
    requires sv == "nginx/1.25.3"
    ensures TrimRust(sv) == sv
    ensures KnownWebServer(sv) == Some(("nginx", "1.25.3"))
  {
    NginxVersionChars(sv);
    TrimRustKeeps(sv);
    LitAtCIByChars(sv, 0, "nginx");
    RunIs(sv, 6, IsVersionChar, 6);
    assert WebServers[0] == "nginx";
  }

  lemma NginxNoPoweredBy(t: string)
    requires t == NginxText
    ensures forall q :: 0 <= q < |t| + 1 && q + 1 < |t| ==> LowerChar(t[q]) != 'x' || LowerChar(t[q + 1]) != '-'
  {
  }

  lemma NginxNoMarkup(t: string)
    requires t == NginxText
    ensures forall k :: 0 <= k < |t| ==> t[k] != '<'
  {
  }

  lemma NginxNoSsh(t: string)
    requires t == NginxText
    ensures forall q :: 0 <= q && q + 1 < |t| ==> t[q] != 'S' || t[q + 1] != 'S'
    ensures !GreetingStart(t)
  {
    assert t[0] == 'H';
  }

  /** Only the Server header rule fires on the nginx response. */
  lemma NginxOnlyServer(t: string)
    requires t == NginxText
    ensures PoweredByHeader(t).None? && HtmlTitle(t).None? && SshBanner(t).None?
    ensures SmtpGreeting(t).None? && FtpKeyword(t).None?
  {
    NginxNoPoweredBy(t);
    NoLitCIBelow(t, "x-powered-by:", |t| + 1);
    FindCaptureNone(t, Literal("x-powered-by:"), IsCrLf);
    NginxNoMarkup(t);
    NoTitle(t);
    NginxNoSsh(t);
    NoSshBanner(t);
  }

  /**
   * `test_http_server_header`: the nginx response gives protocol "http",
   * product "nginx", version "1.25.3" and confidence 0.9.
   */
  lemma HttpServerHeader()
    ensures var fp := FingerprintOf(BannerPort(80, NginxBanner));
      fp.protocol == "http" && fp.product == "nginx" && fp.version == "1.25.3" && fp.confidence == 90
  {
    var p := BannerPort(80, NginxBanner);
    assert Combined(p) == NginxText;
    NginxServerHeader(Combined(p));
    NginxKnown("nginx/1.25.3");
    NginxOnlyServer(Combined(p));
    KnownServerReported(p);
  }

  // ------------------------------------------------------- test_ssh_openssh

  // Long literals are written in pieces so that the verifier can index them.
  const OpenSshBanner: string := "SSH-2.0-" + "OpenSSH_8.9p1" + " Ubuntu-3"
  const OpenSshText: string := OpenSshBanner + " "

  lemma OpenSshPrefix(t: string)
    requires t == OpenSshText
    ensures OccursAt(t, "SSH-2.0-", 0) && !GreetingStart(t)
  {
    assert t[..8] == "SSH-2.0-";
    assert t[..3][0] == 'S';
  }

  lemma OpenSshWord(t: string)
    requires t == OpenSshText
    ensures |t| == 31 && t[8..21] == "OpenSSH_8.9p1" && IsRustSpace(t[21])
    ensures forall k :: 8 <= k < 21 ==> !IsRustSpace(t[k])
  {
  }

  lemma OpenSshNoServer(t: string)
    requires t == OpenSshText
    ensures forall q :: 0 <= q < |t| + 1 && q + 1 < |t| ==> LowerChar(t[q]) != 's' || LowerChar(t[q + 1]) != 'e'
  {
  }

  lemma OpenSshNoPoweredBy(t: string)
    requires t == OpenSshText
    ensures forall q :: 0 <= q < |t| + 1 && q + 1 < |t| ==> LowerChar(t[q]) != 'x' || LowerChar(t[q + 1]) != '-'
  {
  }

  lemma OpenSshNoMarkup(t: string)
    requires t == OpenSshText
    ensures forall k :: 0 <= k < |t| ==> t[k] != '<'
  {
  }

  /** No HTTP rule fires on an SSH identification without headers or markup. */
  lemma OpenSshNoHttp(t: string)
    requires t == OpenSshText
    ensures ServerHeader(t).None? && PoweredByHeader(t).None? && HtmlTitle(t).None?
  {
    OpenSshNoServer(t);
    NoLitCIBelow(t, "server:", |t| + 1);
    FindCaptureNone(t, Literal("server:"), IsCrLf);
    OpenSshNoPoweredBy(t);
    NoLitCIBelow(t, "x-powered-by:", |t| + 1);
    FindCaptureNone(t, Literal("x-powered-by:"), IsCrLf);
    OpenSshNoMarkup(t);
    NoTitle(t);
  }

  /** The identification is OpenSSH_8.9p1, and no mail or FTP greeting opens the text. */
  lemma OpenSshIdentification(t: string)
    requires t == OpenSshText
    ensures SshBanner(t) == Some("OpenSSH_8.9p1")
    ensures SmtpGreeting(t).None? && FtpKeyword(t).None?
  {
    OpenSshPrefix(t);
    OpenSshWord(t);
    SshAtIs(t, 0, 13);
  }

  lemma OpenSshVersionChars(b: string)
    requires b == "OpenSSH_8.9p1"
    ensures |b| == 13 && b[8..13] == "8.9p1" && b[7] == '_'
    ensures forall k :: 0 <= k < 7 ==> LowerChar(b[k]) == "openssh"[k]
    ensures forall k :: 8 <= k < 13 ==> IsOpenSshVersionChar(b[k])
  {
  }

  lemma OpenSshVersion(b: string)
    requires b == "OpenSSH_8.9p1"
    ensures VersionAfter(b, "openssh", OptionalSep, IsOpenSshVersionChar) == Some("8.9p1")
  {
    OpenSshVersionChars(b);
    LitAtCIByChars(b, 0, "openssh");
    FindLitCIIs(b, "openssh", 0);
    RunIs(b, 8, IsOpenSshVersionChar, 5);
    VersionAfterAt(b, "openssh", OptionalSep, IsOpenSshVersionChar, 0);
    VersionTextIs(b, 7, OptionalSep, IsOpenSshVersionChar, 8, 5);
  }

  /**
   * `test_ssh_openssh`: protocol "ssh", product "OpenSSH", version "8.9p1"
   * and confidence 0.95.
   */
  lemma SshOpenSsh()
    ensures var fp := FingerprintOf(BannerPort(22, OpenSshBanner));
      fp.protocol == "ssh" && fp.product == "OpenSSH" && fp.version == "8.9p1" && fp.confidence == 95
  {
    var p := BannerPort(22, OpenSshBanner);
    assert Combined(p) == OpenSshText;
    OpenSshNoHttp(Combined(p));
    OpenSshIdentification(Combined(p));
    OpenSshVersion("OpenSSH_8.9p1");
    SshBannerReported(p);
  }

  // ------------------------------------------------------ test_ssh_dropbear

  const DropbearBanner: string := "SSH-2.0-dropbear_2022.83"
  const DropbearText: string := DropbearBanner + " "

  lemma DropbearPrefix(t: string)
    requires t == DropbearText
    ensures OccursAt(t, "SSH-2.0-", 0) && !GreetingStart(t)
  {
    assert t[..8] == "SSH-2.0-";
    assert t[..3][0] == 'S';
  }

  lemma DropbearWord(t: string)
    requires t == DropbearText
    ensures |t| == 25 && t[8..24] == "dropbear_2022.83" && IsRustSpace(t[24])
    ensures forall k :: 8 <= k < 24 ==> !IsRustSpace(t[k])
  {
  }

  lemma DropbearNoServer(t: string)
    requires t == DropbearText
    ensures forall q :: 0 <= q < |t| + 1 && q + 1 < |t| ==> LowerChar(t[q]) != 's' || LowerChar(t[q + 1]) != 'e'
  {
  }

  lemma DropbearNoPoweredBy(t: string)
    requires t == DropbearText
    ensures forall q :: 0 <= q < |t| + 1 && q + 1 < |t| ==> LowerChar(t[q]) != 'x' || LowerChar(t[q + 1]) != '-'
  {
  }

  lemma DropbearNoMarkup(t: string)
    requires t == DropbearText
    ensures forall k :: 0 <= k < |t| ==> t[k] != '<'
  {
  }

  lemma DropbearNoHttp(t: string)
    requires t == DropbearText
    ensures ServerHeader(t).None? && PoweredByHeader(t).None? && HtmlTitle(t).None?
  {
    DropbearNoServer(t);
    NoLitCIBelow(t, "server:", |t| + 1);
    FindCaptureNone(t, Literal("server:"), IsCrLf);
    DropbearNoPoweredBy(t);
    NoLitCIBelow(t, "x-powered-by:", |t| + 1);
    FindCaptureNone(t, Literal("x-powered-by:"), IsCrLf);
    DropbearNoMarkup(t);
    NoTitle(t);
  }

  lemma DropbearIdentification(t: string)
    requires t == DropbearText
    ensures SshBanner(t) == Some("dropbear_2022.83")
    ensures SmtpGreeting(t).None? && FtpKeyword(t).None?
  {
    DropbearPrefix(t);
    DropbearWord(t);
    SshAtIs(t, 0, 16);
  }

  lemma DropbearVersionChars(b: string)
    requires b == "dropbear_2022.83"
    ensures |b| == 16 && b[9..16] == "2022.83" && b[8] == '_'
    ensures forall k :: 0 <= k < 8 ==> LowerChar(b[k]) == "dropbear"[k]
    ensures forall k :: 9 <= k < 16 ==> IsVersionChar(b[k])
  {
  }

  lemma DropbearNotOpenSsh(b: string)
    requires b == "dropbear_2022.83"
    ensures forall q :: 0 <= q < |b| + 1 && q + 2 < |b| ==>
      LowerChar(b[q]) != 'o' || LowerChar(b[q + 1]) != 'p' || LowerChar(b[q + 2]) != 'e'
  {
  }

  /** The identification names Dropbear 2022.83 and not OpenSSH. */
  lemma DropbearVersion(b: string)
    requires b == "dropbear_2022.83"
    ensures VersionAfter(b, "openssh", OptionalSep, IsOpenSshVersionChar).None?
    ensures ContainsCI(b, "dropbear")
    ensures VersionAfter(b, "dropbear", OptionalSep, IsVersionChar) == Some("2022.83")
  {
    DropbearNotOpenSsh(b);
    NoLitCIBelow3(b, "openssh", |b| + 1);
    DropbearVersionChars(b);
    LitAtCIByChars(b, 0, "dropbear");
    LowerSlice(b, 0, 8);
    ContainsAt(Lower(b), "dropbear", 0);
    FindLitCIIs(b, "dropbear", 0);
    RunIs(b, 9, IsVersionChar, 7);
    VersionAfterAt(b, "dropbear", OptionalSep, IsVersionChar, 0);
    VersionTextIs(b, 8, OptionalSep, IsVersionChar, 9, 7);
  }

  /**
   * `test_ssh_dropbear`: protocol "ssh", product "Dropbear", version
   * "2022.83" and confidence 0.9.
   */
  lemma SshDropbear()
    ensures var fp := FingerprintOf(BannerPort(22, DropbearBanner));
      fp.protocol == "ssh" && fp.product == "Dropbear" && fp.version == "2022.83" && fp.confidence == 90
  {
    var p := BannerPort(22, DropbearBanner);
    assert Combined(p) == DropbearText;
    DropbearNoHttp(Combined(p));
    DropbearIdentification(Combined(p));
    DropbearVersion("dropbear_2022.83");
    SshBannerReported(p);
  }

  // ---------------------------------------------------- test_tls_fingerprint

  const TlsDetails: string := "TLS Service " + "CN=example.com" + " Issuer=Let's Encrypt" + " validTo=2025-12-01"

  lemma TlsMarkerChars(d: string)
    requires d == TlsDetails
    ensures |d| == 66
    ensures forall k :: 0 <= k < 3 ==> LowerChar(d[k]) == "tls"[k]
  {
  }

  /** The details name TLS. */
  lemma TlsMarker(d: string)
    requires d == TlsDetails
    ensures CertMarker(d)
  {
    TlsMarkerChars(d);
    LitAtCIByChars(d, 0, "tls");
    LowerSlice(d, 0, 3);
    ContainsAt(Lower(d), "tls", 0);
  }

  lemma TlsCnChars(d: string)
    requires d == TlsDetails
    ensures |d| == 66 && LowerChar(d[12]) == 'c' && LowerChar(d[13]) == 'n' && IsEqOrColon(d[14])
  {
  }

  lemma TlsBeforeCn(d: string)
    requires d == TlsDetails
    ensures forall q :: 0 <= q < 12 && q + 1 < |d| ==> LowerChar(d[q]) != 'c' || LowerChar(d[q + 1]) != 'n'
    ensures forall q :: 0 <= q < 12 && q + 1 < |d| ==> LowerChar(d[q]) != 's' || LowerChar(d[q + 1]) != 'u'
  {
  }

  /** The first `CN=` or `Subject:` opening in the details ends at index 15. */
  lemma TlsCnKey(d: string)
    requires d == TlsDetails
    ensures KeyEnd(CnOrSubject, d, 12) == Some(15)
    ensures forall q :: 0 <= q < 12 ==> KeyEnd(CnOrSubject, d, q).None?
  {
    TlsCnChars(d);
    LitAtCIByChars(d, 12, "cn");
    TlsBeforeCn(d);
    NoLitCIBelow(d, "cn", 12);
    NoLitCIBelow(d, "subject:", 12);
  }

  lemma TlsNameChars(d: string)
    requires d == TlsDetails
    ensures |d| == 66 && d[15..26] == "example.com" && IsSpaceCommaSemi(d[26])
    ensures forall k :: 15 <= k < 26 ==> !IsSpaceCommaSemi(d[k])
    ensures !IsRustSpace(d[15])
  {
    var head := "TLS Service " + "CN=example.com";
    assert d == head + (" Issuer=Let's Encrypt" + " validTo=2025-12-01");
    assert d[..26] == head;
    assert head[15..26] == "example.com" && head[15] == 'e';
    assert d[26] == ' ';
  }

  lemma TlsNameCapture(d: string)
    requires d == TlsDetails
    ensures SpaceThenCapture(d, 15, IsSpaceCommaSemi) == Some("example.com")
  {
    TlsNameChars(d);
    RunIs(d, 15, IsRustSpace, 0);
    SpaceThenCaptureIs(d, 15, IsSpaceCommaSemi, 0, 11);
  }

  /** The common name in the details is example.com. */
  lemma TlsCommonName(d: string)
    requires d == TlsDetails
    ensures CommonName(d) == Some("example.com")
  {
    TlsCnKey(d);
    TlsNameCapture(d);
    FindCaptureIs(d, CnOrSubject, IsSpaceCommaSemi, 12);
  }

  /**
   * `test_tls_fingerprint`: a certificate is recorded, its subject is
   * "example.com", and the confidence is at least 0.7.
   */
  lemma TlsFingerprint()
    ensures var fp := FingerprintOf(DeepScanPort(443, "", TlsDetails, false, "info", None));
      && fp.tlsCert == Some(CertOf("example.com", TlsDetails))
      && fp.tlsCert.value.subject == "example.com"
      && fp.confidence >= 70
  {
    var p := DeepScanPort(443, "", TlsDetails, false, "info", None);
    TlsMarker(p.details);
    TlsCommonName(p.details);
    assert TrimRust("example.com") == "example.com" by {
      TrimRustKeeps("example.com");
    }
    NoBannerNoGreeting(p);
    ConfidenceBounds(p);
  }

  // --------------------------------------------------- an FTP server greeting

  const VsftpdBanner: string := "220 (vsFTPd 3.0.5)"
  const VsftpdText: string := VsftpdBanner + " "

  lemma VsftpdLine(t: string)
    requires t == VsftpdText
    ensures |t| == 19 && GreetingStart(t)
    ensures forall k :: 0 <= k < |t| ==> t[k] != '\n'
    ensures forall k :: 0 <= k < 3 ==> LowerChar(t[7 + k]) == "ftp"[k]
  {
    assert t[..3] == "220";
  }

  lemma VsftpdWordChars(t: string)
    requires t == VsftpdText
    ensures |t| == 19 && t[12..17] == "3.0.5"
    ensures forall k :: 0 <= k < 6 ==> LowerChar(t[5 + k]) == "vsftpd"[k]
    ensures forall q :: 0 <= q < 5 && q + 1 < |t| ==> LowerChar(t[q]) != 'v' || LowerChar(t[q + 1]) != 's'
    ensures IsRustSpace(t[11]) && !IsRustSpace(t[12])
    ensures forall k :: 12 <= k < 17 ==> IsVersionChar(t[k])
    ensures !IsVersionChar(t[17])
  {
  }

  /** The greeting matches the FTP pattern. */
  lemma VsftpdKeyword(t: string)
    requires t == VsftpdText
    ensures FtpKeyword(t).Some?
  {
    VsftpdLine(t);
    assert LineEnd(t, 4) == |t|;
    LitAtCIByChars(t, 7, "ftp");
    assert FtpWordAt(t, 7).Some?;
    FtpKeywordPosRightmost(t, |t|);
  }

  /** The greeting names vsftpd 3.0.5. */
  lemma VsftpdVersion(t: string)
    requires t == VsftpdText
    ensures VersionAfter(t, "vsftpd", Spaces, IsVersionChar) == Some("3.0.5")
  {
    VsftpdWordChars(t);
    LitAtCIByChars(t, 5, "vsftpd");
    NoLitCIBelow(t, "vsftpd", 5);
    FindLitCIIs(t, "vsftpd", 5);
    RunIs(t, 11, IsRustSpace, 1);
    RunIs(t, 12, IsVersionChar, 5);
    VersionAfterAt(t, "vsftpd", Spaces, IsVersionChar, 5);
    VersionTextIs(t, 11, Spaces, IsVersionChar, 12, 5);
  }

  /**
   * A vsftpd greeting: whatever the earlier detectors set, the FTP rule
   * decides protocol "ftp", product "vsftpd", version "3.0.5" and 0.9.
   */
  lemma VsftpdFingerprint()
    ensures var fp := FingerprintOf(BannerPort(21, VsftpdBanner));
      fp.protocol == "ftp" && fp.product == "vsftpd" && fp.version == "3.0.5" && fp.confidence == 90
  {
    var p := BannerPort(21, VsftpdBanner);
    var t := Combined(p);
    assert t == VsftpdText;
    VsftpdKeyword(t);
    VsftpdVersion(t);
    DetectedReported(p);
  }

  // ------------------------------ test_port_heuristic_fallback, test_unknown_port

  /** The single space the detectors read for a port with neither banner nor details. */
  lemma SpaceOnly(t: string)
    requires t == " "
    ensures ServerHeader(t).None? && PoweredByHeader(t).None?
    ensures HtmlTitle(t).None? && SshBanner(t).None?
  {
    FindCaptureNone(t, Literal("server:"), IsCrLf);
    FindCaptureNone(t, Literal("x-powered-by:"), IsCrLf);
    NoTitle(t);
    NoSshBanner(t);
  }

  /** A port with neither banner nor details gets exactly its port-table entry. */
  lemma NothingToRead(p: DeepScanPort)
    requires p.rawBanner.None? && p.details == ""
    ensures var fp := FingerprintOf(p);
      (fp.protocol, fp.product, fp.confidence) == PortTable(p.port)
  {
    assert Combined(p) == " ";
    SpaceOnly(Combined(p));
    NoBannerNoGreeting(p);
    assert !CertMarker(p.details);
    FallbackIffNothingFired(p);
  }

  /** `test_port_heuristic_fallback`: port 3306 is reported as MySQL at 0.3. */
  lemma PortHeuristicFallback()
    ensures var fp := FingerprintOf(DeepScanPort(3306, "", "", false, "info", None));
      fp.protocol == "mysql" && fp.product == "MySQL" && fp.confidence == 30
  {
    NothingToRead(DeepScanPort(3306, "", "", false, "info", None));
  }

  /** `test_unknown_port`: port 12345 is reported as unknown at 0.1. */
  lemma UnknownPort()
    ensures var fp := FingerprintOf(DeepScanPort(12345, "", "", false, "info", None));
      fp.protocol == "unknown" && fp.confidence == 10
  {
    NothingToRead(DeepScanPort(12345, "", "", false, "info", None));
  }
}
