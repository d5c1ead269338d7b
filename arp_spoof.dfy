/**
 * ARP spoof detection over tshark ARP-reply lines (source IP, source MAC,
 * destination IP, destination MAC, tab-separated).  The detector keeps an
 * IP -> MAC table, rebinds the source IP on every accepted reply, and raises
 * a critical alert when a bound IP moves to another MAC, or a warning for a
 * gratuitous announcement.  Timestamps are not modelled.
 */
module ArpSpoof {
  import opened Common
  import opened Text

  datatype ArpAlert = ArpAlert(
    ip: string,
    previousMac: string,
    currentMac: string,
    isGateway: bool,
    isGratuitous: bool,
    severity: string)

  /** The fields of an accepted reply line. */
  datatype ArpReply = ArpReply(srcIp: string, srcMac: string, dstIp: string)

  /**
   * The first comma-separated value of the first three trimmed fields; `None`
   * for a line with fewer than two fields or without a source IP or MAC.
   */
  function ParseReply(line: string): (r: Option<ArpReply>)
    ensures r.Some? ==> r.value.srcIp != "" && r.value.srcMac != ""
    ensures r.Some? ==> ',' !in r.value.srcIp && ',' !in r.value.srcMac && ',' !in r.value.dstIp
  {
    var parts := TrimmedFields(line);
    if |parts| < 2 then None
    else
      var srcIp := FirstValue(parts[0]);
      var srcMac := FirstValue(parts[1]);
      var dstIp := if FieldAt(parts, 2) != "" then FirstValue(parts[2]) else "";
      if srcIp == "" || srcMac == "" then None
      else Some(ArpReply(srcIp, srcMac, dstIp))
  }

  /** The table already binds the reply's IP to a different (non-empty) MAC. */
  predicate Rebound(table: map<string, string>, a: ArpReply) {
    a.srcIp in table && table[a.srcIp] != "" && table[a.srcIp] != a.srcMac
  }

  datatype ArpStep = ArpStep(table: map<string, string>, alert: Option<ArpAlert>)

  /** `onLineParsed`: the new table and the alert raised, if any. */
  function OnLine(table: map<string, string>, line: string): (r: ArpStep)
    ensures ParseReply(line).None? ==> r == ArpStep(table, None)
    ensures ParseReply(line).Some? ==>
      var a := ParseReply(line).value;
      && r.table == table[a.srcIp := a.srcMac]
      && (r.alert.Some? && !r.alert.value.isGratuitous <==> Rebound(table, a))
      && (r.alert.Some? && r.alert.value.isGratuitous <==> !Rebound(table, a) && a.srcIp == a.dstIp)
      && (Rebound(table, a) ==>
            r.alert == Some(ArpAlert(a.srcIp, table[a.srcIp], a.srcMac, false, false, "critical")))
      && (!Rebound(table, a) && a.srcIp == a.dstIp ==>
            r.alert == Some(ArpAlert(a.srcIp, a.srcMac, a.srcMac, false, true, "warning")))
  {
    match ParseReply(line)
    case None => ArpStep(table, None)
    case Some(a) =>
      var previous := if a.srcIp in table then table[a.srcIp] else "";
      var table' := table[a.srcIp := a.srcMac];
      if previous != "" && previous != a.srcMac then
        ArpStep(table', Some(ArpAlert(a.srcIp, previous, a.srcMac, false, false, "critical")))
      else if a.srcIp == a.dstIp then
        ArpStep(table', Some(ArpAlert(a.srcIp, if previous != "" then previous else a.srcMac,
                                      a.srcMac, false, true, "warning")))
      else ArpStep(table', None)
  }

  /** Every binding in the table has a non-empty IP and MAC. */
  predicate BindingsNonEmpty(table: map<string, string>) {
    forall ip :: ip in table ==> ip != "" && table[ip] != ""
  }

  /**
   * Accepted lines keep the bindings non-empty, so on such a table a critical
   * alert means exactly that the IP was bound to another MAC.
   */
  lemma OnLineKeepsBindings(table: map<string, string>, line: string)
    requires BindingsNonEmpty(table)
    ensures BindingsNonEmpty(OnLine(table, line).table)
    ensures ParseReply(line).Some? ==>
      var a := ParseReply(line).value;
      Rebound(table, a) <==> a.srcIp in table && table[a.srcIp] != a.srcMac
  {
  }

  /** The table after feeding `lines` in order. */
  function Replay(table: map<string, string>, lines: seq<string>): (r: map<string, string>)
    ensures table.Keys <= r.Keys
    ensures BindingsNonEmpty(table) ==> BindingsNonEmpty(r)
    decreases |lines|
  {
    if lines == [] then table
    else OnLine(Replay(table, lines[..|lines| - 1]), lines[|lines| - 1]).table
  }

  /** The MAC of the last accepted line for `ip`, or the starting binding. */
  function LastMac(table: map<string, string>, lines: seq<string>, ip: string): Option<string>
    decreases |lines|
  {
    if lines == [] then (if ip in table then Some(table[ip]) else None)
    else
      var last := ParseReply(lines[|lines| - 1]);
      if last.Some? && last.value.srcIp == ip then Some(last.value.srcMac)
      else LastMac(table, lines[..|lines| - 1], ip)
  }

  /** A later reply for the same IP overwrites the earlier binding. */
  lemma {:induction false} ReplayLastMac(table: map<string, string>, lines: seq<string>, ip: string)
    ensures ip in Replay(table, lines) <==> LastMac(table, lines, ip).Some?
    ensures ip in Replay(table, lines) ==> Replay(table, lines)[ip] == LastMac(table, lines, ip).value
    decreases |lines|
  {
    if lines != [] {
      ReplayLastMac(table, lines[..|lines| - 1], ip);
    }
  }

  /** The detector with its module-level `arpTable`. */
  class ArpSpoofDetector {
    var arpTable: map<string, string>

    ghost predicate Valid()
      reads this
    {
      BindingsNonEmpty(arpTable)
    }

    constructor()
      ensures Valid() && arpTable == map[]
    {
      arpTable := map[];
    }

    /** `startArpDetection` clears the table before the capture starts. */
    method Start()
      modifies this
      ensures Valid() && arpTable == map[]
    {
      arpTable := map[];
    }

    method OnLineParsed(line: string) returns (alert: Option<ArpAlert>)
      requires Valid()
      modifies this
      ensures Valid()
      ensures ArpStep(arpTable, alert) == OnLine(old(arpTable), line)
    {
      OnLineKeepsBindings(arpTable, line);
      alert := None;
      var parts := TrimmedFields(line);
      if |parts| >= 2 {
        var srcIp := FirstValue(parts[0]);
        var srcMac := FirstValue(parts[1]);
        var dstIp := if FieldAt(parts, 2) != "" then FirstValue(parts[2]) else "";
        if srcIp == "" || srcMac == "" {
          return;
        }
        var previousMac := if srcIp in arpTable then arpTable[srcIp] else "";
        arpTable := arpTable[srcIp := srcMac];
        if previousMac != "" && previousMac != srcMac {
          alert := Some(ArpAlert(srcIp, previousMac, srcMac, false, false, "critical"));
        } else if srcIp == dstIp {
          alert := Some(ArpAlert(srcIp, if previousMac != "" then previousMac else srcMac,
                                 srcMac, false, true, "warning"));
        }
      }
    }
  }
}
