/**
 * The regular expressions of the fingerprinting engine, each written out as
 * the extractor the regex engine computes: the leftmost match position, and
 * for that position the first successful way through alternations, greedy
 * repetitions and optional parts.  `(?i)` compares ASCII letters without case;
 * `\s` is the Unicode White_Space set.
 */
module FingerprintPatterns {
  import opened Common
  import opened Text

  /** The lower-case literal `lit` occurs at `i`, ignoring ASCII case. */
  predicate LitAtCI(s: string, i: nat, lit: string) {
    i + |lit| <= |s| && Lower(s[i..i + |lit|]) == lit
  }

  predicate IsCrLf(c: char) { c == '\r' || c == '\n' }
  predicate IsCrLfSemi(c: char) { c == '\r' || c == '\n' || c == ';' }
  /** The characters `[^\s,;]` excludes. */
  predicate IsSpaceCommaSemi(c: char) { IsRustSpace(c) || c == ',' || c == ';' }
  predicate IsEqOrColon(c: char) { c == '=' || c == ':' }

  /** The way a header-like pattern opens, before its `\s*(capture)` tail. */
  datatype Key =
    | Literal(lit: string)    // the literal itself, e.g. `Server:`
    | LiteralSep(lit: string) // the literal followed by `[=:]`, e.g. `Issuer[=:]`
    | CnOrSubject             // `CN[=:]` or `Subject:`
    | Expiry                  // `(?:validTo|expires?|not\s*after)[=:]`

  /** Where the opening of `key` ends when it matches at `p`. */
  function KeyEnd(key: Key, s: string, p: nat): (r: Option<nat>)
    ensures r.Some? ==> p < r.value <= |s|
  {
    match key
    case Literal(lit) =>
      if |lit| > 0 && LitAtCI(s, p, lit) then Some(p + |lit|) else None
    case LiteralSep(lit) =>
      if LitAtCI(s, p, lit) && p + |lit| < |s| && IsEqOrColon(s[p + |lit|]) then Some(p + |lit| + 1)
      else None
    case CnOrSubject =>
      if LitAtCI(s, p, "cn") && p + 2 < |s| && IsEqOrColon(s[p + 2]) then Some(p + 3)
      else if LitAtCI(s, p, "subject:") then Some(p + 8)
      else None
    case Expiry =>
      if LitAtCI(s, p, "validto") && p + 7 < |s| && IsEqOrColon(s[p + 7]) then Some(p + 8)
      else if LitAtCI(s, p, "expire") && p + 6 < |s| then
        // `s?` is greedy: with an `s` present only `[=:]` after it can follow
        if LowerChar(s[p + 6]) == 's' then
          (if p + 7 < |s| && IsEqOrColon(s[p + 7]) then Some(p + 8) else None)
        else if IsEqOrColon(s[p + 6]) then Some(p + 7)
        else None
      else if LitAtCI(s, p, "not") then
        var w := Run(s, p + 3, IsRustSpace);
        var a := p + 3 + w;
        if LitAtCI(s, a, "after") && a + 5 < |s| && IsEqOrColon(s[a + 5]) then Some(a + 6) else None
      else None
  }

  /**
   * Greedy `\s*` backtracks one character at a time, so the capture starts at
   * the largest offset `k <= w` whose character the capture class accepts.
   */
  function LastCaptureStart(s: string, e: nat, k: nat, stop: char -> bool): (r: Option<nat>)
    requires e + k <= |s|
    ensures r.Some? ==> r.value <= k && e + r.value < |s| && !stop(s[e + r.value])
    ensures r.Some? ==> forall j :: e + r.value < j <= e + k && j < |s| ==> stop(s[j])
    ensures r.None? ==> forall j :: e <= j <= e + k && j < |s| ==> stop(s[j])
    decreases k
  {
    if e + k < |s| && !stop(s[e + k]) then Some(k)
    else if k == 0 then None
    else LastCaptureStart(s, e, k - 1, stop)
  }

  /** `\s*([^stop]+)` matched from index `e`: the captured text. */
  function SpaceThenCapture(s: string, e: nat, stop: char -> bool): (r: Option<string>)
    requires e <= |s|
    ensures r.Some? ==> |r.value| > 0 && forall k :: 0 <= k < |r.value| ==> !stop(r.value[k])
  {
    var w := Run(s, e, IsRustSpace);
    match LastCaptureStart(s, e, w, stop)
    case None => None
    case Some(k) =>
      var n := Run(s, e + k, c => !stop(c));
      Some(s[e + k..e + k + n])
  }

  /** The capture of `key \s* ([^stop]+)` for a match starting at `p`. */
  function CaptureAt(s: string, key: Key, stop: char -> bool, p: nat): Option<string>
  {
    match KeyEnd(key, s, p)
    case None => None
    case Some(e) => SpaceThenCapture(s, e, stop)
  }

  function CaptureHits(s: string, key: Key, stop: char -> bool): nat -> bool {
    (q: nat) => CaptureAt(s, key, stop, q).Some?
  }

  /**
   * Leftmost-first search from `p`: the capture at the first position where the
   * whole pattern matches.
   */
  function FindCaptureFrom(s: string, key: Key, stop: char -> bool, p: nat): Option<string>
    requires p <= |s|
  {
    match FirstHit(CaptureHits(s, key, stop), p, |s|)
    case None => None
    case Some(q) => CaptureAt(s, key, stop, q)
  }

  /** The search succeeds exactly when some position matches, and reports the first. */
  lemma FindCaptureLeftmost(s: string, key: Key, stop: char -> bool, p: nat)
    requires p <= |s|
    ensures var r := FindCaptureFrom(s, key, stop, p);
      && (r.Some? <==> exists q :: p <= q <= |s| && CaptureAt(s, key, stop, q).Some?)
      && (r.Some? ==> exists q :: p <= q <= |s| && CaptureAt(s, key, stop, q) == r
                       && forall q' :: p <= q' < q ==> CaptureAt(s, key, stop, q').None?)
  {
    var hit := CaptureHits(s, key, stop);
    FirstHitLeftmost(hit, p, |s|);
    var h := FirstHit(hit, p, |s|);
    if h.Some? {
      var q := h.value;
      assert CaptureAt(s, key, stop, q).Some?;
      forall q' | p <= q' < q ensures CaptureAt(s, key, stop, q').None? {
        assert !hit(q');
      }
    } else {
      forall q | p <= q <= |s| ensures CaptureAt(s, key, stop, q).None? {
        assert !hit(q);
      }
    }
  }

  function FindCapture(s: string, key: Key, stop: char -> bool): Option<string> {
    FindCaptureFrom(s, key, stop, 0)
  }

  /** `(?i)Server:\s*([^\r\n]+)`, untrimmed. */
  function ServerHeader(s: string): Option<string> {
    FindCapture(s, Literal("server:"), IsCrLf)
  }

  /** `(?i)X-Powered-By:\s*([^\r\n]+)`, untrimmed. */
  function PoweredByHeader(s: string): Option<string> {
    FindCapture(s, Literal("x-powered-by:"), IsCrLf)
  }

  /** `(?i)Issuer[=:]\s*([^\r\n;]+)`, untrimmed. */
  function IssuerField(s: string): Option<string> {
    FindCapture(s, LiteralSep("issuer"), IsCrLfSemi)
  }

  /** `(?i)(?:validTo|expires?|not\s*after)[=:]\s*([^\r\n;]+)`, untrimmed. */
  function ExpiryField(s: string): Option<string> {
    FindCapture(s, Expiry, IsCrLfSemi)
  }

  /** `(?i)(?:CN[=:]\s*|Subject:\s*)([^\s,;]+)`. */
  function CommonName(s: string): Option<string> {
    FindCapture(s, CnOrSubject, IsSpaceCommaSemi)
  }

  /** `(?i)<title>([^<]+)</title>` matched at `p`. */
  function TitleAt(s: string, p: nat): (r: Option<string>)
    ensures r.Some? ==> |r.value| > 0 && '<' !in r.value
  {
    if p + 7 <= |s| && LitAtCI(s, p, "<title>") then
      var n := Run(s, p + 7, c => c != '<');
      if n > 0 && LitAtCI(s, p + 7 + n, "</title>") then Some(s[p + 7..p + 7 + n]) else None
    else None
  }

  function TitleFrom(s: string, p: nat): (r: Option<string>)
    requires p <= |s|
    ensures r.Some? <==> exists q :: p <= q <= |s| && TitleAt(s, q).Some?
    decreases |s| - p
  {
    if TitleAt(s, p).Some? then TitleAt(s, p)
    else if p == |s| then None
    else TitleFrom(s, p + 1)
  }

  /** The untrimmed HTML title. */
  function HtmlTitle(s: string): Option<string> {
    TitleFrom(s, 0)
  }

  /** `SSH-2\.0-(\S+)` (case-sensitive) matched at `p`. */
  function SshAt(s: string, p: nat): (r: Option<string>)
    ensures r.Some? ==> |r.value| > 0 && forall k :: 0 <= k < |r.value| ==> !IsRustSpace(r.value[k])
  {
    if OccursAt(s, "SSH-2.0-", p) && p + 8 < |s| && !IsRustSpace(s[p + 8]) then
      var n := Run(s, p + 8, c => !IsRustSpace(c));
      Some(s[p + 8..p + 8 + n])
    else None
  }

  function SshFrom(s: string, p: nat): (r: Option<string>)
    requires p <= |s|
    ensures r.Some? <==> exists q :: p <= q <= |s| && SshAt(s, q).Some?
    ensures r.Some? ==> exists q :: p <= q <= |s| && SshAt(s, q) == r
    decreases |s| - p
  {
    if SshAt(s, p).Some? then SshAt(s, p)
    else if p == |s| then None
    else SshFrom(s, p + 1)
  }

  /** The SSH software identification after `SSH-2.0-`. */
  function SshBanner(s: string): Option<string> {
    SshFrom(s, 0)
  }

  /** How a version pattern separates its word from the digits. */
  datatype VersionSep = OptionalSep   // `[_\s]?`
                      | Spaces        // `\s*`

  predicate IsVersionChar(c: char) { IsDigit(c) || c == '.' }
  /** `[0-9.p]` under `(?i)`. */
  predicate IsOpenSshVersionChar(c: char) { IsDigit(c) || c == '.' || c == 'p' || c == 'P' }

  /** First index at which the lower-case literal occurs, ignoring ASCII case. */
  function FindLitCI(s: string, lit: string, p: nat): (r: Option<nat>)
    requires p <= |s|
    ensures r.Some? ==> p <= r.value <= |s| && LitAtCI(s, r.value, lit)
    ensures r.Some? ==> forall q :: p <= q < r.value ==> !LitAtCI(s, q, lit)
    ensures r.None? ==> forall q :: p <= q <= |s| ==> !LitAtCI(s, q, lit)
    decreases |s| - p
  {
    if LitAtCI(s, p, lit) then Some(p)
    else if p == |s| then None
    else FindLitCI(s, lit, p + 1)
  }

  /** The lower-case word occurs somewhere in the text, ignoring ASCII case. */
  predicate WordOccurs(s: string, word: string) {
    exists q :: 0 <= q <= |s| && LitAtCI(s, q, word)
  }

  /**
   * `(?i)word SEP ([class]+)?`: everything after the word is optional, so the
   * match is at the first occurrence of the word; the version is the maximal
   * run of class characters after the separator ("" when there is none).
   */
  function VersionAfter(s: string, word: string, sep: VersionSep, cls: char -> bool): (r: Option<string>)
    ensures r.Some? ==> forall k :: 0 <= k < |r.value| ==> cls(r.value[k])
    ensures r.Some? <==> WordOccurs(s, word)
  {
    match FindLitCI(s, word, 0)
    case None => None
    case Some(p) => Some(VersionText(s, p + |word|, sep, cls))
  }

  /** The version digits once the word ends at `e`. */
  function VersionText(s: string, e: nat, sep: VersionSep, cls: char -> bool): (t: string)
    requires e <= |s|
    ensures forall k :: 0 <= k < |t| ==> cls(t[k])
  {
    var v := VersionStart(s, e, sep);
    s[v..v + Run(s, v, cls)]
  }

  /** Where the digits may start once the word ends at `e`. */
  function VersionStart(s: string, e: nat, sep: VersionSep): (v: nat)
    requires e <= |s|
    ensures e <= v <= |s|
  {
    match sep
    case OptionalSep => if e < |s| && (s[e] == '_' || IsRustSpace(s[e])) then e + 1 else e
    case Spaces => e + Run(s, e, IsRustSpace)
  }

  /** The alternatives of the known-web-server pattern, in pattern order. */
  const WebServers: seq<string> :=
    ["nginx", "apache", "lighttpd", "microsoft-iis", "caddy", "openresty", "cloudflare"]

  /**
   * `(?i)^(nginx|…|cloudflare)[/\s]*([0-9.]+)?` on the server value: the
   * lower-cased product and its version ("" when absent).
   */
  function KnownWebServer(server: string): (r: Option<(string, string)>)
    ensures r.Some? ==> r.value.0 in WebServers && LitAtCI(server, 0, r.value.0)
    ensures r.None? <==> forall w :: w in WebServers ==> !LitAtCI(server, 0, w)
  {
    KnownWebServerFrom(server, 0)
  }

  function KnownWebServerFrom(server: string, i: nat): (r: Option<(string, string)>)
    requires i <= |WebServers|
    ensures r.Some? ==> r.value.0 in WebServers[i..] && LitAtCI(server, 0, r.value.0)
    ensures r.Some? ==> forall k :: 0 <= k < |r.value.1| ==> IsVersionChar(r.value.1[k])
    ensures r.None? <==> forall w :: w in WebServers[i..] ==> !LitAtCI(server, 0, w)
    decreases |WebServers| - i
  {
    if i == |WebServers| then None
    else
      var w := WebServers[i];
      if LitAtCI(server, 0, w) then
        var e := |w| + Run(server, |w|, c => c == '/' || IsRustSpace(c));
        Some((w, server[e..e + Run(server, e, IsVersionChar)]))
      else
        assert WebServers[i..] == [w] + WebServers[i + 1..];
        KnownWebServerFrom(server, i + 1)
  }

  /** `(?i)Microsoft\s+ESMTP` matches somewhere. */
  predicate MicrosoftEsmtp(s: string) {
    exists p :: 0 <= p <= |s| && MicrosoftEsmtpAt(s, p)
  }

  predicate MicrosoftEsmtpAt(s: string, p: nat) {
    LitAtCI(s, p, "microsoft")
    && var w := Run(s, p + 9, IsRustSpace);
       w > 0 && LitAtCI(s, p + 9 + w, "esmtp")
  }

  /** `(?i)(?:TLS|SSL|Certificate|CN[=:])` matches somewhere. */
  predicate CertMarker(s: string) {
    ContainsCI(s, "tls") || ContainsCI(s, "ssl") || ContainsCI(s, "certificate")
    || exists p :: 0 <= p < |s| && LitAtCI(s, p, "cn") && p + 2 < |s| && IsEqOrColon(s[p + 2])
  }

  /** The start `^220[\s-]` shared by the SMTP and FTP patterns. */
  predicate GreetingStart(s: string) {
    |s| >= 4 && s[..3] == "220" && (IsRustSpace(s[3]) || s[3] == '-')
  }

  /** `^220[\s-](.+)$` without multi-line mode: the whole text is one line. */
  function SmtpGreeting(s: string): (r: Option<string>)
    ensures r.Some? <==> GreetingStart(s) && |s| >= 5 && '\n' !in s[4..]
    ensures r.Some? ==> r.value == s[4..]
  {
    if GreetingStart(s) && |s| >= 5 && '\n' !in s[4..] then Some(s[4..]) else None
  }

  /**
   * The FTP alternative `FTP|ProFTPD|vsftpd|Pure-FTPd|FileZilla` matching at
   * `q`, tried in pattern order, as it is written in the text.
   */
  function FtpWordAt(s: string, q: nat): (r: Option<string>)
    ensures r.Some? ==> |r.value| >= 3 && q + |r.value| <= |s| && r.value == s[q..q + |r.value|]
  {
    if LitAtCI(s, q, "ftp") then Some(s[q..q + 3])
    else if LitAtCI(s, q, "proftpd") then Some(s[q..q + 7])
    else if LitAtCI(s, q, "vsftpd") then Some(s[q..q + 6])
    else if LitAtCI(s, q, "pure-ftpd") then Some(s[q..q + 9])
    else if LitAtCI(s, q, "filezilla") then Some(s[q..q + 9])
    else None
  }

  /** End of the first line that starts at or after index 4. */
  function LineEnd(s: string, i: nat): (r: nat)
    requires i <= |s|
    ensures i <= r <= |s|
    ensures r < |s| ==> s[r] == '\n'
    ensures forall k :: i <= k < r ==> s[k] != '\n'
    decreases |s| - i
  {
    if i == |s| || s[i] == '\n' then i else LineEnd(s, i + 1)
  }

  /**
   * Greedy `.*` backs off from the end of the first line, so the keyword found
   * is the one starting rightmost in that line: its position.
   */
  function FtpKeywordPos(s: string, q: nat): Option<nat>
    requires 4 <= q <= |s|
  {
    LastHit(FtpHits(s), 4, q)
  }

  function FtpHits(s: string): nat -> bool {
    (q: nat) => FtpWordAt(s, q).Some?
  }

  /** The position found is the rightmost one in `4..q` where a keyword matches. */
  lemma FtpKeywordPosRightmost(s: string, q: nat)
    requires 4 <= q <= |s|
    ensures var r := FtpKeywordPos(s, q);
      && (r.Some? ==> 4 <= r.value <= q && FtpWordAt(s, r.value).Some?)
      && (r.Some? ==> forall q' :: r.value < q' <= q ==> FtpWordAt(s, q').None?)
      && (r.None? <==> forall q' :: 4 <= q' <= q ==> FtpWordAt(s, q').None?)
  {
    LastHitRightmost(FtpHits(s), 4, q);
    var r := FtpKeywordPos(s, q);
    if r.Some? {
      forall q' | r.value < q' <= q ensures FtpWordAt(s, q').None? {
        assert !FtpHits(s)(q');
      }
    } else {
      forall q' | 4 <= q' <= q ensures FtpWordAt(s, q').None? {
        assert !FtpHits(s)(q');
      }
    }
    if forall q' :: 4 <= q' <= q ==> FtpWordAt(s, q').None? {
      forall q': nat | 4 <= q' <= q ensures !FtpHits(s)(q') {
        assert FtpWordAt(s, q').None?;
      }
    }
  }

  /** Capture of `^220[\s-].*(?i)(FTP|ProFTPD|vsftpd|Pure-FTPd|FileZilla)`. */
  function FtpKeyword(s: string): (r: Option<string>)
    ensures r.Some? ==> GreetingStart(s)
  {
    if GreetingStart(s) then
      match FtpKeywordPos(s, LineEnd(s, 4))
      case None => None
      case Some(q) => FtpWordAt(s, q)
    else None
  }

  // ------------------------------------------------- reading a concrete text

  /** A literal matches where each of its characters does, ignoring case. */
  lemma LitAtCIByChars(s: string, i: nat, lit: string)
    requires i + |lit| <= |s|
    requires forall k :: 0 <= k < |lit| ==> LowerChar(s[i + k]) == lit[k]
    ensures LitAtCI(s, i, lit)
  {
    var low := Lower(s[i..i + |lit|]);
    forall k | 0 <= k < |lit| ensures low[k] == lit[k] {
      assert s[i..i + |lit|][k] == s[i + k];
    }
  }

  /** A match of `lit` at `q` agrees with its first two characters. */
  lemma LitAtCIHead(s: string, q: nat, lit: string)
    requires |lit| >= 2 && LitAtCI(s, q, lit)
    ensures LowerChar(s[q]) == lit[0] && LowerChar(s[q + 1]) == lit[1]
  {
    assert s[q..q + |lit|][0] == s[q] && s[q..q + |lit|][1] == s[q + 1];
  }

  /**
   * No position below `m` starts `lit` when no two adjacent characters there
   * spell its first two letters, ignoring case.
   */
  lemma NoLitCIBelow(s: string, lit: string, m: nat)
    requires |lit| >= 2
    requires forall q :: 0 <= q < m && q + 1 < |s| ==> LowerChar(s[q]) != lit[0] || LowerChar(s[q + 1]) != lit[1]
    ensures forall q: nat :: q < m ==> !LitAtCI(s, q, lit)
  {
    forall q: nat | q < m ensures !LitAtCI(s, q, lit) {
      if LitAtCI(s, q, lit) {
        LitAtCIHead(s, q, lit);
      }
    }
  }

  /** The same with the first three letters. */
  lemma NoLitCIBelow3(s: string, lit: string, m: nat)
    requires |lit| >= 3
    requires forall q :: 0 <= q < m && q + 2 < |s| ==>
      LowerChar(s[q]) != lit[0] || LowerChar(s[q + 1]) != lit[1] || LowerChar(s[q + 2]) != lit[2]
    ensures forall q: nat :: q < m ==> !LitAtCI(s, q, lit)
  {
    forall q: nat | q < m ensures !LitAtCI(s, q, lit) {
      if q + |lit| <= |s| {
        var w := s[q..q + |lit|];
        assert w[0] == s[q] && w[1] == s[q + 1] && w[2] == s[q + 2];
      }
    }
  }

  /** The exact length of a run, read off its last character and the one after. */
  lemma RunIs(s: string, i: nat, p: char -> bool, n: nat)
    requires i + n <= |s|
    requires forall k :: i <= k < i + n ==> p(s[k])
    requires i + n == |s| || !p(s[i + n])
    ensures Run(s, i, p) == n
  {
  }

  /** The search reports the capture at the first position that matches. */
  lemma FindCaptureIs(s: string, key: Key, stop: char -> bool, q: nat)
    requires q <= |s| && CaptureAt(s, key, stop, q).Some?
    requires forall q' :: 0 <= q' < q ==> KeyEnd(key, s, q').None?
    ensures FindCapture(s, key, stop) == CaptureAt(s, key, stop, q)
  {
    FindCaptureLeftmost(s, key, stop, 0);
    var r := FindCapture(s, key, stop);
    var q0 :| 0 <= q0 <= |s| && CaptureAt(s, key, stop, q0) == r
              && forall q' :: 0 <= q' < q0 ==> CaptureAt(s, key, stop, q').None?;
  }

  /** A pattern whose opening matches nowhere captures nothing. */
  lemma FindCaptureNone(s: string, key: Key, stop: char -> bool)
    requires forall q :: 0 <= q <= |s| ==> KeyEnd(key, s, q).None?
    ensures FindCapture(s, key, stop).None?
  {
    FindCaptureLeftmost(s, key, stop, 0);
  }

  /** Without a '<' there is no HTML title. */
  lemma NoTitle(s: string)
    requires forall k :: 0 <= k < |s| ==> s[k] != '<'
    ensures HtmlTitle(s).None?
  {
    forall q | 0 <= q <= |s| ensures TitleAt(s, q).None? {
      if q + 7 <= |s| {
        var w := s[q..q + 7];
        assert w[0] == s[q];
      }
    }
  }

  /** Without "SS" there is no SSH identification. */
  lemma NoSshBanner(s: string)
    requires forall q :: 0 <= q && q + 1 < |s| ==> s[q] != 'S' || s[q + 1] != 'S'
    ensures SshBanner(s).None?
  {
    forall q | 0 <= q <= |s| ensures !OccursAt(s, "SSH-2.0-", q) {
      if q + 8 <= |s| {
        var w := s[q..q + 8];
        assert w[0] == s[q] && w[1] == s[q + 1];
      }
    }
  }

  /** `\s*([^stop]+)` on a text whose space run and capture run are known. */
  lemma SpaceThenCaptureIs(s: string, e: nat, stop: char -> bool, w: nat, n: nat)
    requires e + w + n <= |s| && n > 0
    requires Run(s, e, IsRustSpace) == w
    requires forall k :: e + w <= k < e + w + n ==> !stop(s[k])
    requires e + w + n == |s| || stop(s[e + w + n])
    ensures SpaceThenCapture(s, e, stop) == Some(s[e + w..e + w + n])
  {
  }

  /** `SSH-2\.0-(\S+)` at `p` on a text whose identification run is known. */
  lemma SshAtIs(s: string, p: nat, n: nat)
    requires OccursAt(s, "SSH-2.0-", p) && n > 0 && p + 8 + n <= |s|
    requires forall k :: p + 8 <= k < p + 8 + n ==> !IsRustSpace(s[k])
    requires p + 8 + n == |s| || IsRustSpace(s[p + 8 + n])
    ensures SshAt(s, p) == Some(s[p + 8..p + 8 + n])
  {
  }

  /** The first occurrence of `lit` is at `p`. */
  lemma FindLitCIIs(s: string, lit: string, p: nat)
    requires p <= |s| && LitAtCI(s, p, lit)
    requires forall q: nat :: q < p ==> !LitAtCI(s, q, lit)
    ensures FindLitCI(s, lit, 0) == Some(p)
  {
  }

  /** Where the word first occurs at `p`, the version is read from its end. */
  lemma VersionAfterAt(s: string, word: string, sep: VersionSep, cls: char -> bool, p: nat)
    requires FindLitCI(s, word, 0) == Some(p)
    ensures p + |word| <= |s|
    ensures VersionAfter(s, word, sep, cls) == Some(VersionText(s, p + |word|, sep, cls))
  {
    assert LitAtCI(s, p, word);
  }

  /** The version digits: `n` characters of the class from `v`, the start the separator gives. */
  lemma VersionTextIs(s: string, e: nat, sep: VersionSep, cls: char -> bool, v: nat, n: nat)
    requires e <= |s|
    requires sep.OptionalSep? ==> v == e + 1 <= |s| && (s[e] == '_' || IsRustSpace(s[e]))
    requires sep.Spaces? ==> v == e + Run(s, e, IsRustSpace)
    requires v <= |s| && Run(s, v, cls) == n
    ensures VersionText(s, e, sep, cls) == s[v..v + n]
  {
  }

}
