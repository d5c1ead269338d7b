/**
 * Snapshot diff of the Rust engine: hosts keyed by IP in a baseline and in a
 * current scan, compared into new hosts, missing hosts and per-host port
 * changes, with summary counts.  Hash-set iteration order is left open: every
 * list is specified by its elements.
 */
module SnapshotDiff {
  import opened Common
  import opened Models

  /** The IPs occurring in a list of hosts. */
  function IpsOf(hosts: seq<Host>): set<string> {
    set h | h in hosts :: h.ip
  }

  /** `collect` into a HashMap keyed by IP: a later host replaces an earlier one. */
  function IndexByIp(hosts: seq<Host>): (m: map<string, Host>)
    ensures m.Keys == IpsOf(hosts)
    ensures forall ip :: ip in m ==> m[ip].ip == ip && m[ip] in hosts
    decreases |hosts|
  {
    if hosts == [] then map[]
    else
      var init := hosts[..|hosts| - 1];
      var last := hosts[|hosts| - 1];
      assert hosts == init + [last];
      IndexByIp(init)[last.ip := last]
  }

  /** With duplicate IPs the record kept is the last one with that IP. */
  lemma {:induction false} IndexKeepsLast(hosts: seq<Host>, j: nat)
    requires j < |hosts|
    requires forall k :: j < k < |hosts| ==> hosts[k].ip != hosts[j].ip
    ensures IndexByIp(hosts)[hosts[j].ip] == hosts[j]
    decreases |hosts|
  {
    if j < |hosts| - 1 {
      IndexKeepsLast(hosts[..|hosts| - 1], j);
    }
  }

  function PortSet(h: Host): set<U16> {
    set p | p in h.ports
  }

  /** IPs in the current scan that the baseline lacks. */
  function NewIps(baseline: seq<Host>, current: seq<Host>): set<string> {
    IpsOf(current) - IpsOf(baseline)
  }

  /** IPs in the baseline that the current scan lacks. */
  function MissingIps(baseline: seq<Host>, current: seq<Host>): set<string> {
    IpsOf(baseline) - IpsOf(current)
  }

  /** Ports open now that were not open in the baseline record of `ip`. */
  function AddedPorts(baseline: seq<Host>, current: seq<Host>, ip: string): set<U16>
    requires ip in IpsOf(baseline) && ip in IpsOf(current)
  {
    PortSet(IndexByIp(current)[ip]) - PortSet(IndexByIp(baseline)[ip])
  }

  /** Ports open in the baseline record of `ip` that are no longer open. */
  function RemovedPorts(baseline: seq<Host>, current: seq<Host>, ip: string): set<U16>
    requires ip in IpsOf(baseline) && ip in IpsOf(current)
  {
    PortSet(IndexByIp(baseline)[ip]) - PortSet(IndexByIp(current)[ip])
  }

  /** IPs present in both snapshots whose port sets differ. */
  function ChangedIps(baseline: seq<Host>, current: seq<Host>): set<string> {
    set ip | ip in IpsOf(baseline) * IpsOf(current) && PortsDiffer(baseline, current, ip)
  }

  /** Some port was added or removed for a shared IP. */
  predicate PortsDiffer(baseline: seq<Host>, current: seq<Host>, ip: string)
    requires ip in IpsOf(baseline) && ip in IpsOf(current)
  {
    AddedPorts(baseline, current, ip) != {} || RemovedPorts(baseline, current, ip) != {}
  }

  /** A PortChange entry describes `ip` correctly. */
  ghost predicate ChangeDescribes(pc: PortChange, baseline: seq<Host>, current: seq<Host>)
  {
    pc.ip in IpsOf(baseline) && pc.ip in IpsOf(current)
    && NoDuplicates(pc.addedPorts) && NoDuplicates(pc.removedPorts)
    && (forall p :: p in pc.addedPorts <==> p in AddedPorts(baseline, current, pc.ip))
    && (forall p :: p in pc.removedPorts <==> p in RemovedPorts(baseline, current, pc.ip))
  }

  /** The records of the IPs in `ips`, in hash-set order. */
  method HostsOf(ips: set<string>, index: map<string, Host>) returns (hosts: seq<Host>)
    requires ips <= index.Keys
    requires forall ip :: ip in index ==> index[ip].ip == ip
    ensures |hosts| == |ips|
    ensures forall h :: h in hosts <==> h.ip in ips && h == index[h.ip]
  {
    var order := Enumerate(ips);
    hosts := [];
    var i := 0;
    while i < |order|
      invariant 0 <= i <= |order|
      invariant |hosts| == i
      invariant forall k :: 0 <= k < i ==> hosts[k] == index[order[k]]
      invariant forall h :: h in hosts <==> exists k :: 0 <= k < i && h == index[order[k]]
    {
      hosts := hosts + [index[order[i]]];
      i := i + 1;
    }
    forall h ensures h in hosts <==> h.ip in ips && h == index[h.ip] {
      if h.ip in ips && h == index[h.ip] {
        var k :| 0 <= k < |order| && order[k] == h.ip;
      }
    }
  }

  /** The loop body of `compute_diff` for one shared IP: a PortChange when the port sets differ. */
  method PortChangeOf(baseline: seq<Host>, current: seq<Host>, ip: string) returns (r: Option<PortChange>)
    requires ip in IpsOf(baseline) && ip in IpsOf(current)
    ensures r.Some? <==> PortsDiffer(baseline, current, ip)
    ensures r.Some? ==> r.value.ip == ip && ChangeDescribes(r.value, baseline, current)
  {
    var oldPorts := PortSet(IndexByIp(baseline)[ip]);
    var newPorts := PortSet(IndexByIp(current)[ip]);
    var added := Enumerate(newPorts - oldPorts);
    var removed := Enumerate(oldPorts - newPorts);
    if |added| > 0 || |removed| > 0 {
      r := Some(PortChange(ip, added, removed));
    } else {
      r := None;
    }
  }

  /** The `port_changes` loop over the shared IPs, in hash-set order. */
  method CollectPortChanges(baseline: seq<Host>, current: seq<Host>) returns (changes: seq<PortChange>)
    ensures forall k :: 0 <= k < |changes| ==> ChangeDescribes(changes[k], baseline, current)
    ensures DistinctIps(changes)
    ensures ChangeIps(changes) == ChangedIps(baseline, current)
  {
    changes := [];
    ghost var changed := ChangedIps(baseline, current);
    var rest := IpsOf(baseline) * IpsOf(current);
    assert changed <= rest;
    while rest != {}
      invariant rest <= IpsOf(baseline) * IpsOf(current)
      invariant forall k :: 0 <= k < |changes| ==> ChangeDescribes(changes[k], baseline, current)
      invariant DistinctIps(changes)
      invariant ChangeIps(changes) == changed - rest
      decreases |rest|
    {
      var ip :| ip in rest;
      var change := PortChangeOf(baseline, current, ip);
      assert change.Some? <==> ip in changed;
      RemoveStep(ChangeIps(changes), changed, rest, ip);
      if change.Some? {
        ChangeIpsAppend(changes, change.value);
        DescribesAppend(changes, change.value, baseline, current);
        changes := changes + [change.value];
      }
      rest := rest - {ip};
    }
    assert rest == {};
  }

  /** The IPs a list of port changes is about. */
  function ChangeIps(changes: seq<PortChange>): set<string> {
    set pc | pc in changes :: pc.ip
  }

  lemma RemoveStep(done: set<string>, all: set<string>, rest: set<string>, x: string)
    requires done == all - rest && x in rest
    ensures x in all ==> done + {x} == all - (rest - {x})
    ensures x !in all ==> done == all - (rest - {x})
  {
  }

  lemma DescribesAppend(changes: seq<PortChange>, pc: PortChange, baseline: seq<Host>, current: seq<Host>)
    requires forall k :: 0 <= k < |changes| ==> ChangeDescribes(changes[k], baseline, current)
    requires ChangeDescribes(pc, baseline, current)
    ensures forall k :: 0 <= k < |changes| + 1 ==> ChangeDescribes((changes + [pc])[k], baseline, current)
  {
  }

  lemma ChangeIpsAppend(changes: seq<PortChange>, pc: PortChange)
    ensures ChangeIps(changes + [pc]) == ChangeIps(changes) + {pc.ip}
    ensures DistinctIps(changes) && pc.ip !in ChangeIps(changes) ==> DistinctIps(changes + [pc])
  {
    assert forall k :: 0 <= k < |changes| ==> changes[k] in changes;
  }

  /** No two port changes are about the same IP. */
  predicate DistinctIps(changes: seq<PortChange>) {
    forall k, l :: 0 <= k < l < |changes| ==> changes[k].ip != changes[l].ip
  }

  /** `compute_diff`. */
  method ComputeDiff(baseline: Baseline, current: seq<Host>) returns (d: DiffResult)
    ensures |d.newHosts| == |NewIps(baseline.hosts, current)|
    ensures forall h :: h in d.newHosts <==>
      h.ip in NewIps(baseline.hosts, current) && h == IndexByIp(current)[h.ip]
    ensures |d.missingHosts| == |MissingIps(baseline.hosts, current)|
    ensures forall h :: h in d.missingHosts <==>
      h.ip in MissingIps(baseline.hosts, current) && h == IndexByIp(baseline.hosts)[h.ip]
    ensures forall k :: 0 <= k < |d.portChanges| ==> ChangeDescribes(d.portChanges[k], baseline.hosts, current)
    ensures DistinctIps(d.portChanges)
    ensures ChangeIps(d.portChanges) == ChangedIps(baseline.hosts, current)
    ensures d.bannerChanges == [] && d.tlsChanges == []
    ensures d.summaryStats == DiffSummary(|d.newHosts|, |d.missingHosts|, |d.portChanges|, 0, 0)
  {
    var baselineMap := IndexByIp(baseline.hosts);
    var currentMap := IndexByIp(current);
    var baselineIps := baselineMap.Keys;
    var currentIps := currentMap.Keys;

    var newHosts := HostsOf(currentIps - baselineIps, currentMap);
    var missingHosts := HostsOf(baselineIps - currentIps, baselineMap);
    var portChanges := CollectPortChanges(baseline.hosts, current);

    var summary := DiffSummary(|newHosts|, |missingHosts|, |portChanges|, 0, 0);
    d := DiffResult(newHosts, missingHosts, portChanges, [], [], summary);
  }

  // ---------------------------------------------------------------- properties

  /** The added and removed ports rebuild the current port set and never overlap. */
  lemma PortDeltaRebuildsCurrent(baseline: seq<Host>, current: seq<Host>, ip: string)
    requires ip in IpsOf(baseline) && ip in IpsOf(current)
    ensures var before := PortSet(IndexByIp(baseline)[ip]);
            var after := PortSet(IndexByIp(current)[ip]);
            (before - RemovedPorts(baseline, current, ip)) + AddedPorts(baseline, current, ip) == after
    ensures AddedPorts(baseline, current, ip) * RemovedPorts(baseline, current, ip) == {}
  {
  }

  /** A host counts as changed exactly when its two port sets differ. */
  lemma ChangedIffPortSetsDiffer(baseline: seq<Host>, current: seq<Host>, ip: string)
    requires ip in IpsOf(baseline) && ip in IpsOf(current)
    ensures ip in ChangedIps(baseline, current) <==>
      PortSet(IndexByIp(baseline)[ip]) != PortSet(IndexByIp(current)[ip])
  {
  }

  /** Diffing a snapshot against itself finds nothing. */
  lemma SelfDiffIsEmpty(hosts: seq<Host>)
    ensures NewIps(hosts, hosts) == {} && MissingIps(hosts, hosts) == {}
    ensures ChangedIps(hosts, hosts) == {}
  {
  }

  /** New hosts of (B, C) are the missing hosts of (C, B), and vice versa. */
  lemma SwapExchangesNewAndMissing(b: seq<Host>, c: seq<Host>)
    ensures NewIps(b, c) == MissingIps(c, b) && MissingIps(b, c) == NewIps(c, b)
    ensures ChangedIps(b, c) == ChangedIps(c, b)
  {
    forall ip | ip in IpsOf(b) * IpsOf(c)
      ensures AddedPorts(b, c, ip) == RemovedPorts(c, b, ip)
    {
    }
  }

  /** Every current IP is either new or shared with the baseline. */
  lemma CurrentSplitsIntoNewAndShared(b: seq<Host>, c: seq<Host>)
    ensures |NewIps(b, c)| + |IpsOf(b) * IpsOf(c)| == |IpsOf(c)|
  {
    var shared := IpsOf(b) * IpsOf(c);
    assert NewIps(b, c) + shared == IpsOf(c);
    assert NewIps(b, c) * shared == {};
  }
}
