/**
 * Report sanitisation: MAC addresses keep their vendor half, IPv4 addresses
 * lose their host octet, and hostnames are replaced by a short digest.
 * SHA-256 is not modelled: it is a parameter returning 32 bytes.
 */
module Sanitize {
  import opened Common
  import opened Text
  import opened Models
  import opened ReportSummary

  // ------------------------------------------------------------ MAC

  /** The six parts of a MAC with the last three replaced by "XX". */
  function MaskedMac(parts: seq<string>, sep: char): string
    requires |parts| == 6
  {
    parts[0] + [sep] + parts[1] + [sep] + parts[2] + [sep] + "XX" + [sep] + "XX" + [sep] + "XX"
  }

  /** `sanitizeMAC`: ':'-separated first, '-'-separated as a fallback, otherwise unchanged. */
  function SanitizeMac(mac: string): (r: string)
    ensures |Split(mac, ':')| != 6 && |Split(mac, '-')| != 6 ==> r == mac
    ensures r == mac || (|r| >= 2 && r[|r| - 2..] == "XX")
  {
    if mac == "" then mac
    else if |Split(mac, ':')| == 6 then MaskedMac(Split(mac, ':'), ':')
    else if |Split(mac, '-')| == 6 then MaskedMac(Split(mac, '-'), '-')
    else mac
  }

  /** The masked MAC splits into the first three parts and three "XX". */
  lemma MaskedMacSplit(parts: seq<string>, sep: char)
    requires sep != 'X'
    requires |parts| == 6 && forall k :: 0 <= k < 6 ==> sep !in parts[k]
    ensures Split(MaskedMac(parts, sep), sep) == parts[..3] + ["XX", "XX", "XX"]
  {
    var xx := "XX";
    assert xx[0] != sep && xx[1] != sep;
    var tail3 := xx + [sep] + xx;
    var tail2 := xx + [sep] + tail3;
    var tail1 := parts[2] + [sep] + tail2;
    var tail0 := parts[1] + [sep] + tail1;
    assert MaskedMac(parts, sep) == parts[0] + [sep] + tail0;
    SplitNoSep(xx, sep);
    SplitConcat(xx, sep, xx);
    SplitConcat(xx, sep, tail3);
    SplitConcat(parts[2], sep, tail2);
    SplitConcat(parts[1], sep, tail1);
    SplitConcat(parts[0], sep, tail0);
  }

  /**
   * A MAC with six ':'-separated parts keeps the first three and masks the
   * rest, keeping ':' as the separator.
   */
  lemma SanitizeMacColon(mac: string)
    requires |Split(mac, ':')| == 6
    ensures Split(SanitizeMac(mac), ':') == Split(mac, ':')[..3] + ["XX", "XX", "XX"]
  {
    assert mac != "";
    MaskedMacSplit(Split(mac, ':'), ':');
  }

  /** Without six ':' parts, six '-' parts are masked the same way with '-'. */
  lemma SanitizeMacDash(mac: string)
    requires |Split(mac, ':')| != 6 && |Split(mac, '-')| == 6
    ensures Split(SanitizeMac(mac), '-') == Split(mac, '-')[..3] + ["XX", "XX", "XX"]
  {
    assert mac != "";
    MaskedMacSplit(Split(mac, '-'), '-');
  }

  /** Any other shape, the empty string included, is returned as it is. */
  lemma SanitizeMacUnchanged(mac: string)
    requires mac == "" || (|Split(mac, ':')| != 6 && |Split(mac, '-')| != 6)
    ensures SanitizeMac(mac) == mac
  {
  }

  // ------------------------------------------------------------ IP

  function MaskedIp(parts: seq<string>): string
    requires |parts| == 4
  {
    parts[0] + "." + parts[1] + "." + parts[2] + ".x"
  }

  /** `sanitizeIP`: a four-part dotted string loses its last part, anything else is unchanged. */
  function SanitizeIp(ip: string): (r: string)
    ensures |Split(ip, '.')| != 4 ==> r == ip
    ensures r == ip || (|r| >= 2 && r[|r| - 2..] == ".x")
  {
    if ip == "" then ip
    else if |Split(ip, '.')| == 4 then MaskedIp(Split(ip, '.'))
    else ip
  }

  lemma MaskedIpSplit(parts: seq<string>)
    requires |parts| == 4 && forall k :: 0 <= k < 4 ==> '.' !in parts[k]
    ensures Split(MaskedIp(parts), '.') == parts[..3] + ["x"]
  {
    var x := "x";
    var tail1 := parts[2] + ['.'] + x;
    var tail0 := parts[1] + ['.'] + tail1;
    assert MaskedIp(parts) == parts[0] + ['.'] + tail0;
    SplitNoSep(x, '.');
    SplitConcat(parts[2], '.', x);
    SplitConcat(parts[1], '.', tail1);
    SplitConcat(parts[0], '.', tail0);
  }

  /** A four-part address keeps its first three parts and ends in "x". */
  lemma SanitizeIpMasked(ip: string)
    requires |Split(ip, '.')| == 4
    ensures Split(SanitizeIp(ip), '.') == Split(ip, '.')[..3] + ["x"]
  {
    assert ip != "";
    MaskedIpSplit(Split(ip, '.'));
  }

  /** Sanitising an address twice is sanitising it once. */
  lemma SanitizeIpIdempotent(ip: string)
    ensures SanitizeIp(SanitizeIp(ip)) == SanitizeIp(ip)
  {
    if ip != "" && |Split(ip, '.')| == 4 {
      var parts := Split(ip, '.');
      SanitizeIpMasked(ip);
      var q := Split(SanitizeIp(ip), '.');
      assert q[0] == parts[0] && q[1] == parts[1] && q[2] == parts[2];
    }
  }

  // ------------------------------------------------------------ hostname

  /** A SHA-256 digest: 32 bytes. */
  type Digest = s: seq<bv8> | |s| == 32 witness seq(32, _ => 0 as bv8)

  const HexDigits := "0123456789abcdef"

  predicate IsLowerHex(c: char) {
    c in HexDigits
  }

  /** `%x` of one byte: two lower-case hex digits. */
  function Hex(b: bv8): (r: string)
    ensures |r| == 2 && IsLowerHex(r[0]) && IsLowerHex(r[1])
  {
    [HexDigits[b as int / 16], HexDigits[b as int % 16]]
  }

  function HexValue(c: char): nat {
    if '0' <= c <= '9' then c as int - '0' as int
    else if 'a' <= c <= 'f' then c as int - 'a' as int + 10
    else 0
  }

  /** Reading the two digits back gives the byte. */
  lemma HexRoundTrip(b: bv8)
    ensures 16 * HexValue(Hex(b)[0]) + HexValue(Hex(b)[1]) == b as int
  {
    var n := b as int;
    assert forall k :: 0 <= k < 16 ==> HexValue(HexDigits[k]) == k;
    assert n == 16 * (n / 16) + n % 16;
  }

  /** `%x` of the first four digest bytes. */
  function HexPrefix(d: Digest): (r: string)
    ensures |r| == 8 && forall k :: 0 <= k < 8 ==> IsLowerHex(r[k])
  {
    Hex(d[0]) + Hex(d[1]) + Hex(d[2]) + Hex(d[3])
  }

  /** Each pair of digits of the prefix is one digest byte. */
  lemma HexPrefixBytes(d: Digest)
    ensures var r := HexPrefix(d);
      r[0..2] == Hex(d[0]) && r[2..4] == Hex(d[1]) && r[4..6] == Hex(d[2]) && r[6..8] == Hex(d[3])
  {
    PairSlices(Hex(d[0]), Hex(d[1]), Hex(d[2]), Hex(d[3]));
  }

  lemma PairSlices(a: string, b: string, c: string, e: string)
    requires |a| == 2 && |b| == 2 && |c| == 2 && |e| == 2
    ensures var r := a + b + c + e; r[0..2] == a && r[2..4] == b && r[4..6] == c && r[6..8] == e
  {
    var r := a + b + c + e;
    assert r == ((a + b) + c) + e;
    assert r[6..8] == e;
    assert r[..6] == (a + b) + c;
    assert r[4..6] == r[..6][4..6] == c;
    assert r[..4] == a + b;
    assert r[2..4] == r[..4][2..4] == b;
    assert r[0..2] == r[..4][0..2] == a;
  }

  /**
   * `sanitizeHostname`: "" and "Unknown" are kept; any other name becomes
   * "host-" and the hex of the first four digest bytes.
   */
  function SanitizeHostname(hostname: string, sha256: string -> Digest): (r: string)
    ensures hostname == "" || hostname == "Unknown" ==> r == hostname
    ensures hostname != "" && hostname != "Unknown" ==>
      |r| == 13 && r[..5] == "host-" && r[5..] == HexPrefix(sha256(hostname))
  {
    if hostname == "" || hostname == "Unknown" then hostname
    else "host-" + HexPrefix(sha256(hostname))
  }

  // ------------------------------------------------------------ SanitizeHost

  /** `SanitizeHost`: the MAC, IP and hostname are rewritten and nothing else changes. */
  function SanitizeHost(h: ReportHost, sha256: string -> Digest): (r: ReportHost)
    ensures r.host.mac == SanitizeMac(h.host.mac)
    ensures r.host.ip == SanitizeIp(h.host.ip)
    ensures r.host.hostname == SanitizeHostname(h.host.hostname, sha256)
    ensures r.host.(mac := h.host.mac, ip := h.host.ip, hostname := h.host.hostname) == h.host
    ensures r.deepPorts == h.deepPorts
  {
    h.(host := h.host.(
      mac := SanitizeMac(h.host.mac),
      ip := SanitizeIp(h.host.ip),
      hostname := SanitizeHostname(h.host.hostname, sha256)))
  }
}
