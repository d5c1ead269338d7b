/**
 * The banner classifier of the active deep scanner: given the port, the text
 * the service sent on connect (its banner) and the TLS certificate the port
 * presented, it names the service and gives a one-line detail.  Grabbing the
 * banner and the certificate is not modelled; parsing and formatting the
 * certificate's expiry date is a parameter.
 */
module DeepScanner {
  import opened Common
  import opened Text

  /** The peer certificate: subject and issuer as rendered, and its `valid_to` text. */
  datatype TlsCert = TlsCert(subject: string, issuer: string, validTo: string)

  datatype ServiceGuess = ServiceGuess(serviceName: string, details: string)

  /** JavaScript line terminators, the characters a regex `.` does not match. */
  predicate IsLineTerminator(c: char) {
    c == '\n' || c == '\r' || c == '\U{2028}' || c == '\U{2029}'
  }

  predicate IsLineChar(c: char) { !IsLineTerminator(c) }

  /** `Server:` in any letter case at index `i`. */
  predicate ServerLabelAt(b: string, i: nat) {
    i + 7 <= |b| && Lower(b[i..i + 7]) == "server:"
  }

  /** Some character of `b[lo..hi]` is not a line terminator. */
  predicate SomeLineChar(b: string, lo: nat, hi: nat)
    requires lo <= hi <= |b|
  {
    exists j :: lo <= j < hi && IsLineChar(b[j])
  }

  /**
   * The trimmed capture of `/Server:\s*(.+)/i` when the match starts at `i`.
   * `\s*` takes all the white space after the colon; if a line character
   * follows, the capture runs to the end of that line.  Otherwise the regex
   * backtracks into the white space, whose last non-terminator character is
   * captured alone and trims to "".  With only line terminators (or nothing)
   * after the colon there is no match at `i`.
   */
  function ServerMatchAt(b: string, i: nat): (r: Option<string>)
  {
    if !ServerLabelAt(b, i) then None
    else
      var k := i + 7;
      var w := k + Run(b, k, IsJsSpace);
      if w < |b| && IsLineChar(b[w]) then Some(TrimJs(b[w..w + Run(b, w, IsLineChar)]))
      else if SomeLineChar(b, k, w) then Some("")
      else None
  }

  function ServerHits(b: string): nat -> bool {
    (i: nat) => ServerMatchAt(b, i).Some?
  }

  /** The trimmed `Server:` header value of the leftmost match, if any. */
  function ServerHeader(b: string): (r: Option<string>)
  {
    var hit := FirstHit(ServerHits(b), 0, |b|);
    if hit.Some? then ServerMatchAt(b, hit.value) else None
  }

  /** A header is only found where the text holds `server:` in some letter case. */
  lemma ServerHeaderNeedsLabel(b: string)
    ensures ServerHeader(b).Some? ==> exists i :: 0 <= i <= |b| && ServerLabelAt(b, i)
  {
    var hit := FirstHit(ServerHits(b), 0, |b|);
    FirstHitLeftmost(ServerHits(b), 0, |b|);
    if hit.Some? {
      assert ServerLabelAt(b, hit.value);
    }
  }

  /** `Server: v` at the start, with `v` beginning with a printable non-blank character, is found. */
  lemma ServerHeaderAtStart(b: string)
    requires ServerLabelAt(b, 0) && |b| > 7 && !IsJsSpace(b[7])
    ensures ServerHeader(b).Some?
  {
    assert Run(b, 7, IsJsSpace) == 0;
    assert ServerMatchAt(b, 0).Some?;
  }

  /** The text before the first carriage return (`split('\r')[0]`). */
  function FirstLine(b: string): (r: string)
    ensures r <= b && '\r' !in r
    ensures r == b || b[|r|] == '\r'
    ensures r == Split(b, '\r')[0]
  {
    FirstPiece(b, '\r')
  }

  /** `substring(0, 40).replace(/\n|\r/g, ' ')`. */
  function Snippet(b: string): (r: string)
    ensures |r| == Min(40, |b|)
    ensures '\n' !in r && '\r' !in r
    ensures forall k :: 0 <= k < |r| ==> r[k] == (if b[k] == '\n' || b[k] == '\r' then ' ' else b[k])
  {
    var head := b[..Min(40, |b|)];
    seq(|head|, k requires 0 <= k < |head| => if head[k] == '\n' || head[k] == '\r' then ' ' else head[k])
  }

  const NoBanner: string := "No banner replied"

  /**
   * `analyzeService`.  `banner` is "" when nothing was received; `isoDate`
   * turns a `valid_to` text into its ISO calendar date, `None` where
   * `new Date` cannot parse it (the thrown error is swallowed).
   */
  function AnalyzeService(port: int, banner: string, cert: Option<TlsCert>,
                          isoDate: string -> Option<string>): (g: ServiceGuess)
    ensures cert.Some? <==> g.serviceName == "TLS/SSL Service"
    ensures cert.None? && banner != "" <==>
      g.serviceName in {"HTTP Web Server", "SSH Server", "SMTP Mail Server", "FTP Server", "Custom Service"}
    ensures cert.None? && banner == "" <==>
      g.serviceName in {"SSH (Guessed)", "Telnet (Guessed)", "RDP (Guessed)", "DNS (Guessed)", "Unknown TCP Service"}
  {
    if cert.Some? then
      var c := cert.value;
      var d := if c.validTo != "" then isoDate(c.validTo) else None;
      var expires := if d.Some? then " | Expiration: " + d.value else "";
      ServiceGuess("TLS/SSL Service", "Cert Subject: " + c.subject + " | Issuer: " + c.issuer + expires)
    else if banner != "" then
      match ServerHeader(banner)
      case Some(v) => ServiceGuess("HTTP Web Server", "Server Header: " + v)
      case None =>
        if "SSH-" <= banner then ServiceGuess("SSH Server", FirstLine(banner))
        else if "220 " <= banner then ServiceGuess("SMTP Mail Server", FirstLine(banner))
        else if ContainsCI(banner, "ftp") then ServiceGuess("FTP Server", FirstLine(banner))
        else ServiceGuess("Custom Service", "Banner: " + Snippet(banner) + "...")
    else if port == 22 then ServiceGuess("SSH (Guessed)", NoBanner)
    else if port == 23 then ServiceGuess("Telnet (Guessed)", NoBanner)
    else if port == 3389 then ServiceGuess("RDP (Guessed)", NoBanner)
    else if port == 53 then ServiceGuess("DNS (Guessed)", NoBanner)
    else ServiceGuess("Unknown TCP Service", "Port is open, but dropped connection before sending data.")
  }

  /** A certificate decides the classification whatever the banner, and its subject and issuer lead the details. */
  lemma CertificateWins(port: int, banner: string, c: TlsCert, isoDate: string -> Option<string>)
    ensures var g := AnalyzeService(port, banner, Some(c), isoDate);
      && g.serviceName == "TLS/SSL Service"
      && "Cert Subject: " + c.subject + " | Issuer: " + c.issuer <= g.details
      && (c.validTo == "" || isoDate(c.validTo).None? ==>
            g.details == "Cert Subject: " + c.subject + " | Issuer: " + c.issuer)
  {
  }

  /** A `Server:` header makes a web server before the SSH, SMTP and FTP tests. */
  lemma ServerHeaderFirst(port: int, banner: string, isoDate: string -> Option<string>)
    requires banner != "" && ServerHeader(banner).Some?
    ensures AnalyzeService(port, banner, None, isoDate)
      == ServiceGuess("HTTP Web Server", "Server Header: " + ServerHeader(banner).value)
  {
  }

  /** Without a Server header, the SSH and SMTP prefixes give their servers and the first line. */
  lemma PrefixClassified(port: int, banner: string, isoDate: string -> Option<string>)
    requires ServerHeader(banner).None?
    ensures var g := AnalyzeService(port, banner, None, isoDate);
      && ("SSH-" <= banner ==> g.serviceName == "SSH Server")
      && ("220 " <= banner ==> g.serviceName == "SMTP Mail Server")
      && ("SSH-" <= banner || "220 " <= banner ==> g.details == FirstLine(banner))
  {
  }

  /** An FTP greeting that starts with "220 " is taken for a mail server: the SMTP test comes first. */
  lemma FtpGreetingReadsAsSmtp(port: int, banner: string, isoDate: string -> Option<string>)
    requires "220 " <= banner && ContainsCI(banner, "ftp") && ServerHeader(banner).None?
    ensures AnalyzeService(port, banner, None, isoDate).serviceName == "SMTP Mail Server"
  {
  }

  /** Any other banner is a custom service whose details hold at most 40 characters of it, on one line. */
  lemma CustomServiceSnippet(port: int, banner: string, isoDate: string -> Option<string>)
    requires banner != "" && ServerHeader(banner).None?
    requires !("SSH-" <= banner) && !("220 " <= banner) && !ContainsCI(banner, "ftp")
    ensures var g := AnalyzeService(port, banner, None, isoDate);
      && g.serviceName == "Custom Service"
      && g.details == "Banner: " + Snippet(banner) + "..."
      && |g.details| == 11 + Min(40, |banner|)
      && '\n' !in g.details && '\r' !in g.details
  {
    var d := "Banner: " + Snippet(banner) + "...";
    assert forall k :: 0 <= k < |d| ==> d[k] != '\n' && d[k] != '\r' by {
      forall k | 0 <= k < |d| ensures d[k] != '\n' && d[k] != '\r' {
        if 8 <= k < 8 + |Snippet(banner)| {
          assert d[k] == Snippet(banner)[k - 8];
        }
      }
    }
  }

  /** With neither banner nor certificate, only ports 22, 23, 3389 and 53 are guessed, all as silent. */
  lemma SilentPortGuess(port: int, isoDate: string -> Option<string>)
    ensures var g := AnalyzeService(port, "", None, isoDate);
      && (port in {22, 23, 3389, 53} <==> g.details == NoBanner)
      && (port !in {22, 23, 3389, 53} ==> g.serviceName == "Unknown TCP Service")
      && (port == 22 ==> g.serviceName == "SSH (Guessed)")
      && (port == 3389 ==> g.serviceName == "RDP (Guessed)")
  {
  }
}
