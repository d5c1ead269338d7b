/**
 * Cleartext credential capture over tshark lines (source IP, destination IP,
 * destination port, FTP command and argument, HTTP Authorization, POP
 * command and argument, IMAP request).  FTP and POP3 credentials are paired
 * USER-then-PASS per source IP; HTTP Basic and IMAP LOGIN give a credential
 * from a single line.  Base64 decoding is a parameter; timestamps are not
 * modelled.
 */
module CredentialSniffer {
  import opened Common
  import opened Text

  /** A USER command waiting for its PASS. */
  datatype Pending = Pending(username: string, protocol: string, dstIp: string, port: string)

  datatype Credential = Credential(
    protocol: string,
    srcIp: string,
    dstIp: string,
    port: string,
    username: string,
    password: string,
    maskedPassword: string)

  /** The fields of an accepted line; a missing trailing field reads as "". */
  datatype CaptureLine = CaptureLine(
    srcIp: string,
    dstIp: string,
    port: string,
    ftpCmd: string,
    ftpArg: string,
    httpAuth: string,
    popCmd: string,
    popArg: string,
    imapReq: string)

  /** The password masking rule: first and last character kept, the rest starred. */
  function Mask(password: string): (r: string)
    ensures |password| > 2 ==>
      && |r| == |password|
      && r[0] == password[0] && r[|r| - 1] == password[|password| - 1]
      && forall k :: 0 < k < |r| - 1 ==> r[k] == '*'
    ensures |password| <= 2 ==> r == "***"
  {
    if |password| > 2 then [password[0]] + Repeat('*', |password| - 2) + [password[|password| - 1]]
    else "***"
  }

  /** `None` for a line with fewer than three fields or without a source IP. */
  function ParseLine(line: string): (r: Option<CaptureLine>)
    ensures r.None? <==> |TrimmedFields(line)| < 3 || FirstValue(TrimmedFields(line)[0]) == ""
    ensures r.Some? ==> r.value.srcIp != ""
  {
    var parts := TrimmedFields(line);
    if |parts| < 3 then None
    else
      var srcIp := FirstValue(parts[0]);
      if srcIp == "" then None
      else Some(CaptureLine(srcIp, FirstValue(parts[1]), FirstValue(parts[2]),
                            FieldAt(parts, 3), FieldAt(parts, 4), FieldAt(parts, 5),
                            FieldAt(parts, 6), FieldAt(parts, 7), FieldAt(parts, 8)))
  }

  datatype SniffStep = SniffStep(pending: map<string, Pending>, found: Option<Credential>)

  /**
   * `parseUserPassSequence`: USER records (or replaces) the pending entry of
   * the source IP; PASS completes it when the pending entry has the same
   * protocol, and then removes it.
   */
  function UserPass(pending: map<string, Pending>, c: CaptureLine, cmd: string, arg: string, protocol: string): (r: SniffStep)
    ensures cmd == "USER" ==>
      r == SniffStep(pending[c.srcIp := Pending(arg, protocol, c.dstIp, c.port)], None)
    ensures cmd == "PASS" ==>
      && (r.found.Some? <==> c.srcIp in pending && pending[c.srcIp].protocol == protocol)
      && (r.found.Some? ==>
            && r.pending == pending - {c.srcIp}
            && r.found.value == Credential(protocol, c.srcIp, c.dstIp, c.port,
                                           pending[c.srcIp].username, arg, Mask(arg)))
      && (r.found.None? ==> r.pending == pending)
    ensures cmd != "USER" && cmd != "PASS" ==> r == SniffStep(pending, None)
  {
    if cmd == "USER" then
      SniffStep(pending[c.srcIp := Pending(arg, protocol, c.dstIp, c.port)], None)
    else if cmd == "PASS" && c.srcIp in pending && pending[c.srcIp].protocol == protocol then
      var p := pending[c.srcIp];
      SniffStep(pending - {c.srcIp}, Some(Credential(protocol, c.srcIp, c.dstIp, c.port, p.username, arg, Mask(arg))))
    else SniffStep(pending, None)
  }

  /**
   * HTTP Basic: the decoded text split on ':'; a credential needs a non-empty
   * first piece and a second piece, which is the password (any further
   * pieces are dropped).
   */
  function HttpBasic(c: CaptureLine, base64: string -> string): (r: Option<Credential>)
    requires "Basic " <= c.httpAuth
    ensures var pieces := Split(base64(c.httpAuth[6..]), ':');
      && (r.Some? <==> pieces[0] != "" && |pieces| >= 2)
      && (r.Some? ==> r.value == Credential("HTTP Basic", c.srcIp, c.dstIp, c.port,
                                             pieces[0], pieces[1], Mask(pieces[1])))
  {
    var decoded := base64(c.httpAuth[6..]);
    var pieces := Split(decoded, ':');
    if pieces[0] != "" && |pieces| >= 2 then
      Some(Credential("HTTP Basic", c.srcIp, c.dstIp, c.port, pieces[0], pieces[1], Mask(pieces[1])))
    else None
  }

  // ------------------------------------------------ /LOGIN\s+([^ ]+)\s+(.+)/i

  predicate IsLineTerminator(c: char) {
    c == '\n' || c == '\r' || c == '\U{2028}' || c == '\U{2029}'
  }

  predicate NotSpace(c: char) { c != ' ' }

  predicate NotLineTerminator(c: char) { !IsLineTerminator(c) }

  /** Where `(.+)` can start. */
  function DotHits(s: string): nat -> bool {
    (m: nat) => m < |s| && !IsLineTerminator(s[m])
  }

  /**
   * `\s+(.+)` from `k`: greedy `\s+` gives back characters until `.+` can
   * start, so the password starts at the rightmost such position of the run.
   */
  function PasswordStart(s: string, k: nat): Option<nat>
    requires k <= |s|
  {
    var w := Run(s, k, IsJsSpace);
    if w == 0 then None else LastHit(DotHits(s), k + 1, k + w)
  }

  function GapHits(s: string): nat -> bool {
    (k: nat) => k <= |s| && PasswordStart(s, k).Some?
  }

  /** `([^ ]+)\s+(.+)` from `j`: the rightmost end of the user name that lets the rest match. */
  function UserEnd(s: string, j: nat): Option<nat>
    requires j <= |s|
  {
    var u := Run(s, j, NotSpace);
    if u == 0 then None else LastHit(GapHits(s), j + 1, j + u)
  }

  function UserHits(s: string): nat -> bool {
    (j: nat) => j <= |s| && UserEnd(s, j).Some?
  }

  /** `\s+([^ ]+)\s+(.+)` from `i`, just after the keyword. */
  function UserStart(s: string, i: nat): Option<nat>
    requires i <= |s|
  {
    var w := Run(s, i, IsJsSpace);
    if w == 0 then None else LastHit(UserHits(s), i + 1, i + w)
  }

  /** Where the whole pattern can start: `login` in any ASCII case, then the rest. */
  function LoginHits(s: string): nat -> bool {
    (p: nat) => p + 5 <= |s| && Lower(s[p..p + 5]) == "login" && UserStart(s, p + 5).Some?
  }

  datatype ImapMatch = ImapMatch(username: string, password: string)

  /**
   * The capture groups of the leftmost match, with the backtracking of a
   * JavaScript regex: the user name is a non-empty word without spaces and
   * the password a non-empty part of one line.
   */
  function ImapLogin(s: string): (r: Option<ImapMatch>)
    ensures r.Some? ==>
      && r.value.username != "" && ' ' !in r.value.username
      && r.value.password != ""
      && forall k :: 0 <= k < |r.value.password| ==> !IsLineTerminator(r.value.password[k])
  {
    match FirstHit(LoginHits(s), 0, |s|)
    case None => None
    case Some(p) =>
      if p + 5 > |s| then None
      else
        match UserStart(s, p + 5)
        case None => None
        case Some(j) =>
          match UserEnd(s, j)
          case None => None
          case Some(k) =>
            match PasswordStart(s, k)
            case None => None
            case Some(m) =>
              UserEndShape(s, j);
              PasswordStartShape(s, k);
              Some(ImapMatch(s[j..k], s[m..m + Run(s, m, NotLineTerminator)]))
  }

  lemma UserEndShape(s: string, j: nat)
    requires j <= |s|
    ensures UserEnd(s, j).Some? ==>
      var k := UserEnd(s, j).value;
      j < k <= |s| && forall x :: j <= x < k ==> s[x] != ' '
  {
  }

  lemma PasswordStartShape(s: string, k: nat)
    requires k <= |s|
    ensures PasswordStart(s, k).Some? ==>
      var m := PasswordStart(s, k).value;
      m < |s| && !IsLineTerminator(s[m])
  {
    var w := Run(s, k, IsJsSpace);
    if w > 0 {
      LastHitRightmost(DotHits(s), k + 1, k + w);
    }
  }

  /** IMAP: a credential when the pattern matches; the password loses every '"'. */
  function Imap(c: CaptureLine): (r: Option<Credential>)
    ensures r.Some? <==> ImapLogin(c.imapReq).Some?
    ensures r.Some? ==>
      var g := ImapLogin(c.imapReq).value;
      var password := ReplaceChar(g.password, '"', "");
      && r.value == Credential("IMAP", c.srcIp, c.dstIp, c.port, g.username, password, Mask(password))
      && '"' !in r.value.password
  {
    match ImapLogin(c.imapReq)
    case None => None
    case Some(g) =>
      var password := ReplaceChar(g.password, '"', "");
      Some(Credential("IMAP", c.srcIp, c.dstIp, c.port, g.username, password, Mask(password)))
  }

  // ------------------------------------------------ dispatch

  predicate IsBasicAuth(c: CaptureLine) {
    c.httpAuth != "" && "Basic " <= c.httpAuth
  }

  predicate IsImapLogin(c: CaptureLine) {
    c.imapReq != "" && Contains(Upper(c.imapReq), "LOGIN ")
  }

  /**
   * `onLineParsed`: the first present of FTP command, POP command, HTTP Basic
   * header and IMAP LOGIN request decides the line.
   */
  function OnLine(pending: map<string, Pending>, line: string, base64: string -> string): (r: SniffStep)
    ensures ParseLine(line).None? ==> r == SniffStep(pending, None)
    ensures ParseLine(line).Some? ==>
      var c := ParseLine(line).value;
      && (c.ftpCmd != "" ==> r == UserPass(pending, c, Upper(c.ftpCmd), c.ftpArg, "FTP"))
      && (c.ftpCmd == "" && c.popCmd != "" ==> r == UserPass(pending, c, Upper(c.popCmd), c.popArg, "POP3"))
      && (c.ftpCmd == "" && c.popCmd == "" ==> r.pending == pending)
      && (c.ftpCmd == "" && c.popCmd == "" && IsBasicAuth(c) ==> r.found == HttpBasic(c, base64))
      && (c.ftpCmd == "" && c.popCmd == "" && !IsBasicAuth(c) && IsImapLogin(c) ==> r.found == Imap(c))
      && (c.ftpCmd == "" && c.popCmd == "" && !IsBasicAuth(c) && !IsImapLogin(c) ==> r.found.None?)
    ensures r.found.Some? ==>
      && ParseLine(line).Some?
      && r.found.value.srcIp == ParseLine(line).value.srcIp
      && r.found.value.dstIp == ParseLine(line).value.dstIp
      && r.found.value.port == ParseLine(line).value.port
      && r.found.value.maskedPassword == Mask(r.found.value.password)
  {
    match ParseLine(line)
    case None => SniffStep(pending, None)
    case Some(c) =>
      if c.ftpCmd != "" then UserPass(pending, c, Upper(c.ftpCmd), c.ftpArg, "FTP")
      else if c.popCmd != "" then UserPass(pending, c, Upper(c.popCmd), c.popArg, "POP3")
      else if IsBasicAuth(c) then SniffStep(pending, HttpBasic(c, base64))
      else if IsImapLogin(c) then SniffStep(pending, Imap(c))
      else SniffStep(pending, None)
  }

  /**
   * A USER line followed by a PASS line from the same source over the same
   * protocol yields the credential, and leaves nothing pending for that source.
   */
  lemma UserThenPass(pending: map<string, Pending>, user: string, pass: string, base64: string -> string)
    requires ParseLine(user).Some? && ParseLine(pass).Some?
    requires ParseLine(user).value.srcIp == ParseLine(pass).value.srcIp
    requires ParseLine(user).value.ftpCmd != "" && Upper(ParseLine(user).value.ftpCmd) == "USER"
    requires ParseLine(pass).value.ftpCmd != "" && Upper(ParseLine(pass).value.ftpCmd) == "PASS"
    ensures var mid := OnLine(pending, user, base64).pending;
      var r := OnLine(mid, pass, base64);
      var u := ParseLine(user).value;
      var p := ParseLine(pass).value;
      && r.found == Some(Credential("FTP", p.srcIp, p.dstIp, p.port, u.ftpArg, p.ftpArg, Mask(p.ftpArg)))
      && r.pending == pending - {u.srcIp}
  {
    var u := ParseLine(user).value;
    var p := ParseLine(pass).value;
    var mid := OnLine(pending, user, base64).pending;
    assert mid == pending[u.srcIp := Pending(u.ftpArg, "FTP", u.dstIp, u.port)];
    assert mid - {u.srcIp} == pending - {u.srcIp};
  }

  /** The sniffer with its module-level `pendingPairs`. */
  class CredentialSniffer {
    var pendingPairs: map<string, Pending>

    constructor()
      ensures pendingPairs == map[]
    {
      pendingPairs := map[];
    }

    /** `startCredentialSniffing` forgets every pending USER. */
    method Start()
      modifies this
      ensures pendingPairs == map[]
    {
      pendingPairs := map[];
    }

    method ParseUserPassSequence(c: CaptureLine, cmd: string, arg: string, protocol: string)
      returns (found: Option<Credential>)
      modifies this
      ensures SniffStep(pendingPairs, found) == UserPass(old(pendingPairs), c, cmd, arg, protocol)
    {
      found := None;
      if cmd == "USER" {
        pendingPairs := pendingPairs[c.srcIp := Pending(arg, protocol, c.dstIp, c.port)];
      } else if cmd == "PASS" {
        if c.srcIp in pendingPairs && pendingPairs[c.srcIp].protocol == protocol {
          var p := pendingPairs[c.srcIp];
          found := Some(Credential(protocol, c.srcIp, c.dstIp, c.port, p.username, arg, Mask(arg)));
          pendingPairs := pendingPairs - {c.srcIp};
        }
      }
    }

    method OnLineParsed(line: string, base64: string -> string) returns (found: Option<Credential>)
      modifies this
      ensures SniffStep(pendingPairs, found) == OnLine(old(pendingPairs), line, base64)
    {
      found := None;
      var parsed := ParseLine(line);
      if parsed.None? {
        return;
      }
      var c := parsed.value;
      if c.ftpCmd != "" {
        found := ParseUserPassSequence(c, Upper(c.ftpCmd), c.ftpArg, "FTP");
      } else if c.popCmd != "" {
        found := ParseUserPassSequence(c, Upper(c.popCmd), c.popArg, "POP3");
      } else if IsBasicAuth(c) {
        found := HttpBasic(c, base64);
      } else if IsImapLogin(c) {
        found := Imap(c);
      }
    }
  }
}
