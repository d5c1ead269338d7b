/**
 * DNS/mDNS host harvesting over tshark lines (query name, A records, AAAA
 * records, source IP, query type).  Each line with a query name becomes one
 * record; nothing is kept between lines.  Timestamps are not modelled.
 */
module DnsHarvest {
  import opened Common
  import opened Text

  datatype HostFound = HostFound(
    hostname: string,
    resolvedIps: seq<string>,
    queryType: string,
    querySource: string,
    srcIp: string)

  /** The position of the first occurrence of `x`. */
  function FirstIndex(xs: seq<string>, x: string): (i: nat)
    requires x in xs
    ensures i < |xs| && xs[i] == x && x !in xs[..i]
    decreases |xs|
  {
    if xs[0] == x then 0
    else
      var i := FirstIndex(xs[1..], x) + 1;
      assert xs[..i] == [xs[0]] + xs[1..][..i - 1];
      i
  }

  /** `[...new Set(xs)]`: the distinct values, in the order of their first occurrence. */
  function Dedup(xs: seq<string>): (r: seq<string>)
    ensures NoDuplicates(r)
    ensures forall x :: x in r <==> x in xs
    decreases |xs|
  {
    if xs == [] then []
    else
      var d := Dedup(xs[..|xs| - 1]);
      var x := xs[|xs| - 1];
      if x in d then d
      else
        assert forall k :: 0 <= k < |d| ==> d[k] in xs[..|xs| - 1];
        d + [x]
  }

  /** The first occurrence is the one with no earlier occurrence. */
  lemma {:induction false} FirstIndexIs(xs: seq<string>, x: string, i: nat)
    requires i < |xs| && xs[i] == x && x !in xs[..i]
    ensures FirstIndex(xs, x) == i
    decreases i
  {
    if i > 0 {
      assert xs[0] == xs[..i][0];
      assert xs[1..][..i - 1] == xs[1..i];
      FirstIndexIs(xs[1..], x, i - 1);
    }
  }

  lemma FirstIndexPrefix(xs: seq<string>, n: nat, x: string)
    requires n <= |xs| && x in xs[..n]
    ensures FirstIndex(xs[..n], x) == FirstIndex(xs, x)
  {
    var i := FirstIndex(xs[..n], x);
    assert xs[..n][..i] == xs[..i];
    FirstIndexIs(xs, x, i);
  }

  /** Distinct values keep the order in which they first occur in the input. */
  lemma {:induction false} DedupOrder(xs: seq<string>)
    ensures forall a, b :: 0 <= a < b < |Dedup(xs)| ==>
      FirstIndex(xs, Dedup(xs)[a]) < FirstIndex(xs, Dedup(xs)[b])
    decreases |xs|
  {
    if xs != [] {
      var init := xs[..|xs| - 1];
      var d := Dedup(init);
      var x := xs[|xs| - 1];
      DedupOrder(init);
      forall k | 0 <= k < |d| ensures d[k] in init && FirstIndex(xs, d[k]) == FirstIndex(init, d[k]) < |init| {
        assert d[k] in init;
        FirstIndexPrefix(xs, |xs| - 1, d[k]);
      }
      if x !in d {
        assert x !in init;
        FirstIndexIs(xs, x, |init|);
        var r := d + [x];
        forall a, b | 0 <= a < b < |r| ensures FirstIndex(xs, r[a]) < FirstIndex(xs, r[b]) {
          if b < |d| {
            assert r[a] == d[a] && r[b] == d[b];
            assert FirstIndex(init, d[a]) < FirstIndex(init, d[b]);
          }
        }
      } else {
        forall a, b | 0 <= a < b < |d| ensures FirstIndex(xs, d[a]) < FirstIndex(xs, d[b]) {
          assert FirstIndex(init, d[a]) < FirstIndex(init, d[b]);
        }
      }
    }
  }

  /** The comma-separated values of a field, empty ones dropped; [] for an empty field. */
  function Values(field: string): seq<string> {
    if field != "" then NonEmpty(Split(field, ',')) else []
  }

  /**
   * `onLineParsed`: `None` when the first value of the first field is empty;
   * otherwise one record with the IPv4 then IPv6 answers, deduplicated.
   */
  function OnLine(line: string): (r: Option<HostFound>)
    ensures var parts := TrimmedFields(line);
      && (r.None? <==> FirstValue(parts[0]) == "")
      && (r.Some? ==>
            && r.value.hostname == FirstValue(parts[0])
            && r.value.resolvedIps == Dedup(Values(FieldAt(parts, 1)) + Values(FieldAt(parts, 2)))
            && NoDuplicates(r.value.resolvedIps)
            && (forall ip :: ip in r.value.resolvedIps <==>
                  ip != "" && (ip in Split(FieldAt(parts, 1), ',') || ip in Split(FieldAt(parts, 2), ',')))
            && r.value.srcIp == FirstValue(FieldAt(parts, 3))
            && r.value.queryType == FirstValue(FieldAt(parts, 4))
            && (r.value.querySource == "mDNS" <==> EndsWith(r.value.hostname, ".local"))
            && (r.value.querySource == "mDNS" || r.value.querySource == "DNS"))
  {
    var parts := TrimmedFields(line);
    var hostname := FirstValue(parts[0]);
    var ipv4s := Values(FieldAt(parts, 1));
    var ipv6s := Values(FieldAt(parts, 2));
    var srcIp := if FieldAt(parts, 3) != "" then FirstValue(parts[3]) else "";
    var qryType := if FieldAt(parts, 4) != "" then FirstValue(parts[4]) else "";
    if hostname == "" then None
    else
      var ips := Dedup(ipv4s + ipv6s);
      var querySource := if EndsWith(hostname, ".local") then "mDNS" else "DNS";
      Some(HostFound(hostname, ips, qryType, querySource, srcIp))
  }
}
