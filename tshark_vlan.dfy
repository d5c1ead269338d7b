/**
 * VLAN discovery from tshark lines (VLAN ids, source MAC, destination MAC),
 * and the single-capture guard around the tshark process.  Spawning and
 * killing the process are not modelled: only whether one is running.
 */
module TsharkVlan {
  import opened Common
  import opened Text

  /** A discovered VLAN; `vlan` is `None` where `parseInt` gives NaN. */
  datatype VlanDiscovery = VlanDiscovery(vlan: Option<int>, srcMac: string, dstMac: string)

  /**
   * `parseInt(s, 10)`: leading white space skipped, an optional sign, then
   * the longest run of digits; `None` when there is no digit.
   */
  function ParseInt(s: string): (r: Option<int>)
    ensures AllDigits(s) && s != [] ==> r == Some(DigitsValue(s))
  {
    var t := TrimStartBy(s, IsJsSpace);
    var signed := |t| > 0 && (t[0] == '-' || t[0] == '+');
    var u := if signed then t[1..] else t;
    var n := Run(u, 0, IsDigit);
    var v: int := if n == 0 then 0 else DigitsValue(u[..n]);
    if n == 0 then None
    else if signed && t[0] == '-' then Some(-v)
    else
      assert AllDigits(s) && s != [] ==> t == s && n == |s| && u[..n] == s;
      Some(v)
  }

  /** Decimal text reads back as the number it renders. */
  lemma ParseIntOfNatToString(n: nat)
    ensures ParseInt(NatToString(n)) == Some(n)
  {
    DigitsValueOfNatToString(n);
  }

  /** `vlans.forEach`: one discovery per id, as long as there is a source MAC. */
  function Discoveries(vids: seq<string>, srcMac: string, dstMac: string): (r: seq<VlanDiscovery>)
    ensures |r| <= |vids|
    ensures r != [] ==> srcMac != ""
    ensures forall k :: 0 <= k < |r| ==> r[k].srcMac == srcMac && r[k].dstMac == dstMac
    decreases |vids|
  {
    if vids == [] then []
    else
      var vid := vids[|vids| - 1];
      Discoveries(vids[..|vids| - 1], srcMac, dstMac)
        + (if vid != "" && srcMac != "" then [VlanDiscovery(ParseInt(vid), srcMac, dstMac)] else [])
  }

  /** With non-empty ids and a source MAC, every id gives its discovery, in order. */
  lemma {:induction false} DiscoveriesEach(vids: seq<string>, srcMac: string, dstMac: string)
    requires srcMac != "" && forall k :: 0 <= k < |vids| ==> vids[k] != ""
    ensures |Discoveries(vids, srcMac, dstMac)| == |vids|
    ensures forall k :: 0 <= k < |vids| ==>
      Discoveries(vids, srcMac, dstMac)[k] == VlanDiscovery(ParseInt(vids[k]), srcMac, dstMac)
    decreases |vids|
  {
    if vids != [] {
      var init := vids[..|vids| - 1];
      DiscoveriesEach(init, srcMac, dstMac);
      var d := Discoveries(init, srcMac, dstMac);
      var last := VlanDiscovery(ParseInt(vids[|vids| - 1]), srcMac, dstMac);
      assert vids[|vids| - 1] != "";
      var all := Discoveries(vids, srcMac, dstMac);
      assert all == d + [last];
      assert |d| == |init| == |vids| - 1;
      forall k | 0 <= k < |vids|
        ensures all[k] == VlanDiscovery(ParseInt(vids[k]), srcMac, dstMac)
      {
        if k < |init| {
          assert all[k] == d[k] && init[k] == vids[k];
        } else {
          assert all[k] == last;
        }
      }
    }
  }

  /** Without a source MAC nothing is discovered. */
  lemma {:induction false} DiscoveriesNeedSource(vids: seq<string>, dstMac: string)
    ensures Discoveries(vids, "", dstMac) == []
    decreases |vids|
  {
    if vids != [] {
      DiscoveriesNeedSource(vids[..|vids| - 1], dstMac);
    }
  }

  lemma {:induction false} NonEmptyAll(xs: seq<string>)
    ensures forall k :: 0 <= k < |NonEmpty(xs)| ==> NonEmpty(xs)[k] != ""
    decreases |xs|
  {
    if xs != [] {
      NonEmptyAll(xs[..|xs| - 1]);
    }
  }

  /** The VLAN ids of a line: the non-empty comma-separated values of the first field. */
  function VlanIds(line: string): seq<string>
    requires |TrimmedFields(line)| >= 3
  {
    NonEmpty(Split(TrimmedFields(line)[0], ','))
  }

  /** The line handler. */
  function OnLine(line: string): (r: seq<VlanDiscovery>)
    ensures |TrimmedFields(line)| < 3 ==> r == []
    ensures r != [] ==> |TrimmedFields(line)| >= 3 && TrimmedFields(line)[1] != ""
    ensures forall k :: 0 <= k < |r| ==>
      r[k].srcMac == TrimmedFields(line)[1] && r[k].dstMac == TrimmedFields(line)[2]
  {
    var parts := TrimmedFields(line);
    if |parts| < 3 then []
    else Discoveries(NonEmpty(Split(parts[0], ',')), parts[1], parts[2])
  }

  /** One discovery per non-empty VLAN id, none for a short line or without a source MAC. */
  lemma OnLineDiscoveries(line: string)
    ensures |TrimmedFields(line)| < 3 ==> OnLine(line) == []
    ensures |TrimmedFields(line)| >= 3 ==>
      var parts := TrimmedFields(line);
      var r := OnLine(line);
      && (parts[1] == "" ==> r == [])
      && (parts[1] != "" ==>
            && |r| == |VlanIds(line)|
            && forall k :: 0 <= k < |r| ==> r[k] == VlanDiscovery(ParseInt(VlanIds(line)[k]), parts[1], parts[2]))
  {
    var parts := TrimmedFields(line);
    if |parts| >= 3 {
      var vlans := NonEmpty(Split(parts[0], ','));
      NonEmptyAll(Split(parts[0], ','));
      if parts[1] != "" {
        DiscoveriesEach(vlans, parts[1], parts[2]);
      } else {
        DiscoveriesNeedSource(vlans, parts[2]);
      }
    }
  }

  /** The module-level `tsharkProcess`, reduced to whether a capture is running. */
  class TsharkCapture {
    var running: bool

    constructor()
      ensures !running
    {
      running := false;
    }

    /** `startTsharkCapture`: a no-op while a capture is running. */
    method Start() returns (started: bool)
      modifies this
      ensures started == !old(running)
      ensures running
    {
      if running {
        return false;
      }
      running := true;
      return true;
    }

    /** `stopTsharkCapture`: true, and no capture running, exactly when one was. */
    method Stop() returns (stopped: bool)
      modifies this
      ensures stopped == old(running)
      ensures !running
    {
      if running {
        running := false;
        return true;
      }
      return false;
    }

    /** The process `close` and `error` events. */
    method OnExit()
      modifies this
      ensures !running
    {
      running := false;
    }
  }
}
