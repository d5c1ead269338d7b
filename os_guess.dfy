/**
 * Host identification helpers of the active scanner: the OS guess from open
 * ports and the vendor name, the IP -> MAC table read from the output of
 * `arp -a`, and the key under which a MAC's vendor is looked up.  Running the
 * ping sweep, the port probes and `arp -a`, and the vendor API, are not
 * modelled; each ARP line arrives as the IP and MAC its regular expressions
 * captured, if they matched.
 */
module OsGuess {
  import opened Common
  import opened Text

  const OsNames: set<string> :=
    {"Windows", "macOS", "iOS / macOS", "Android / ChromeOS", "Linux (Raspbian)", "Linux / Unix", "Unknown OS"}

  /** Any of the Windows-only services: RDP, RPC, NetBIOS, SMB. */
  predicate WindowsPorts(ports: seq<int>) {
    3389 in ports || 135 in ports || 139 in ports || 445 in ports
  }

  /**
   * `guessOS`: port signatures first (Windows, then macOS), then the vendor,
   * then SSH as a Unix hint.
   */
  function GuessOS(ports: seq<int>, vendor: string): (os: string)
    ensures os in OsNames
    ensures WindowsPorts(ports) <==> os == "Windows"
    ensures os == "macOS" <==>
      !WindowsPorts(ports) && (548 in ports || (vendor == "Apple, Inc." && 5900 in ports))
    ensures !WindowsPorts(ports) && os != "macOS" ==>
      && (os == "iOS / macOS" <==> vendor == "Apple, Inc.")
      && (os == "Android / ChromeOS" <==> vendor == "Samsung Electronics" || vendor == "Google, Inc.")
      && (os == "Linux (Raspbian)" <==> vendor == "Raspberry Pi Foundation")
    ensures os == "Linux / Unix" ==> 22 in ports
    ensures os == "Unknown OS" ==> 22 !in ports
  {
    if WindowsPorts(ports) then "Windows"
    else if 548 in ports || (vendor == "Apple, Inc." && 5900 in ports) then "macOS"
    else if vendor == "Apple, Inc." then "iOS / macOS"
    else if vendor == "Samsung Electronics" || vendor == "Google, Inc." then "Android / ChromeOS"
    else if vendor == "Raspberry Pi Foundation" then "Linux (Raspbian)"
    else if 22 in ports then "Linux / Unix"
    else "Unknown OS"
  }

  /** The guess depends on the set of open ports only, not on their order or repetition. */
  lemma GuessOSPortSet(ports: seq<int>, others: seq<int>, vendor: string)
    requires forall p :: p in ports <==> p in others
    ensures GuessOS(ports, vendor) == GuessOS(others, vendor)
  {
  }

  // ------------------------------------------------------------ ARP table

  /** The IP and MAC captured from one `arp -a` line. */
  datatype ArpEntry = ArpEntry(ip: string, mac: string)

  const Broadcast: string := "FF:FF:FF:FF:FF:FF"

  /** Dashes become colons and letters are upper-cased. */
  function NormalizeMac(mac: string): (r: string)
    ensures '-' !in r
    ensures forall k :: 0 <= k < |r| ==> !IsLower(r[k])
  {
    Upper(ReplaceChar(mac, '-', ":"))
  }

  /** The normalised form is a fixed point: normalising twice changes nothing. */
  lemma {:induction false} NormalizeMacIdempotent(mac: string)
    ensures NormalizeMac(NormalizeMac(mac)) == NormalizeMac(mac)
  {
    var r := NormalizeMac(mac);
    ReplaceCharAbsent(r, '-', ":");
    assert Upper(r) == r;
  }

  lemma {:induction false} ReplaceCharAbsent(s: string, c: char, rep: string)
    requires c !in s
    ensures ReplaceChar(s, c, rep) == s
    decreases |s|
  {
    if s != [] {
      ReplaceCharAbsent(s[1..], c, rep);
    }
  }

  /** The table after the lines in `matches`: a matched line binds its IP unless its MAC is the broadcast one. */
  function ArpTable(matches: seq<Option<ArpEntry>>): (r: map<string, string>)
    ensures forall ip :: ip in r ==> r[ip] != Broadcast
    decreases |matches|
  {
    if matches == [] then map[]
    else
      var t := ArpTable(matches[..|matches| - 1]);
      var m := matches[|matches| - 1];
      if m.Some? && NormalizeMac(m.value.mac) != Broadcast then t[m.value.ip := NormalizeMac(m.value.mac)] else t
  }

  /** The line that decides an IP's entry: the last matched one with a non-broadcast MAC. */
  function LastBinding(matches: seq<Option<ArpEntry>>, ip: string): Option<string>
    decreases |matches|
  {
    if matches == [] then None
    else
      var m := matches[|matches| - 1];
      if m.Some? && m.value.ip == ip && NormalizeMac(m.value.mac) != Broadcast then Some(NormalizeMac(m.value.mac))
      else LastBinding(matches[..|matches| - 1], ip)
  }

  /**
   * A later line for the same IP overwrites an earlier one, broadcast MACs
   * never enter the table, and every MAC in it is normalised.
   */
  lemma {:induction false} ArpTableLastWins(matches: seq<Option<ArpEntry>>, ip: string)
    ensures ip in ArpTable(matches) <==> LastBinding(matches, ip).Some?
    ensures ip in ArpTable(matches) ==>
      && ArpTable(matches)[ip] == LastBinding(matches, ip).value
      && ArpTable(matches)[ip] != Broadcast
      && '-' !in ArpTable(matches)[ip]
    decreases |matches|
  {
    if matches != [] {
      ArpTableLastWins(matches[..|matches| - 1], ip);
    }
  }

  /** `getArpTable`'s `forEach` over the lines of `arp -a`. */
  method GetArpTable(matches: seq<Option<ArpEntry>>) returns (arpMap: map<string, string>)
    ensures arpMap == ArpTable(matches)
  {
    arpMap := map[];
    for i := 0 to |matches|
      invariant arpMap == ArpTable(matches[..i])
    {
      assert matches[..i + 1][..i] == matches[..i];
      var m := matches[i];
      if m.Some? {
        var mac := NormalizeMac(m.value.mac);
        if mac != Broadcast {
          arpMap := arpMap[m.value.ip := mac];
        }
      }
    }
    assert matches[..|matches|] == matches;
  }

  // ------------------------------------------------------------ vendor lookup

  /**
   * The OUI key of `getVendorFromMac`: the first eight characters (three
   * octets and their separators), upper-cased; `None` where the lookup
   * answers "Unknown" straight away (no MAC, or the MAC "Unknown").
   */
  function OuiKey(mac: string): (key: Option<string>)
    ensures key.None? <==> mac == "" || mac == "Unknown"
    ensures key.Some? ==>
      && |key.value| == Min(8, |mac|)
      && key.value == Upper(mac[..|key.value|])
  {
    if mac == "" || mac == "Unknown" then None else Some(Upper(mac[..Min(8, |mac|)]))
  }

  /** The key ignores letter case and everything after the OUI. */
  lemma OuiKeyCaseAndSuffix(mac: string, rest: string)
    requires |mac| >= 8
    ensures OuiKey(mac + rest) == OuiKey(mac)
    ensures OuiKey(Lower(mac)) == OuiKey(mac)
  {
    assert (mac + rest)[..8] == mac[..8];
    var a, b := Upper(Lower(mac)[..8]), Upper(mac[..8]);
    assert forall k :: 0 <= k < 8 ==> a[k] == UpperChar(LowerChar(mac[k])) == UpperChar(mac[k]) == b[k];
    assert a == b;
  }
}
