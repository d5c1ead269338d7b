/**
 * The renderer's "scan all" orchestrator: it queues the IPs of the known
 * hosts and runs deep (or nmap) scans on them, at most three at a time,
 * refilling as each host finishes.  The state object becomes a class; the
 * `active` Set becomes a duplicate-free sequence in insertion order.  Calls
 * into the scanning API are returned as a list of `ApiCall`s; `updateUI` is
 * not modelled.
 */
module ScanAll {
  import opened Common
  import opened Text

  /** The calls the orchestrator makes on the scanning API. */
  datatype ApiCall =
    | RunDeepScan(ip: string)
    | RunNmapScan(mode: string, ip: string)
    | CancelDeepScan(ip: string)
    | CancelNmapScan(ip: string)

  /** The concurrency cap. */
  const MaxActive: nat := 3

  const Native: string := "native"

  /** `s.replace(pat, "")` with a string pattern: only the first occurrence is removed. */
  function RemoveFirst(s: string, pat: string): (r: string)
    requires pat != []
    ensures |r| == if Contains(s, pat) then |s| - |pat| else |s|
    decreases |s|
  {
    if pat <= s then s[|pat|..]
    else if s == [] then []
    else [s[0]] + RemoveFirst(s[1..], pat)
  }

  /** Removing a pattern that does not occur leaves the text alone. */
  lemma {:induction false} RemoveFirstAbsent(s: string, pat: string)
    requires pat != [] && !Contains(s, pat)
    ensures RemoveFirst(s, pat) == s
    decreases |s|
  {
    if s != [] {
      RemoveFirstAbsent(s[1..], pat);
    }
  }

  /** A leading pattern is the one removed, whatever follows it. */
  lemma RemoveFirstPrefix(pat: string, rest: string)
    requires pat != []
    ensures RemoveFirst(pat + rest, pat) == rest
  {
    assert pat <= pat + rest;
    assert (pat + rest)[|pat|..] == rest;
  }

  /** The nmap mode of a scan type: "nmap-quick" runs mode "quick". */
  function NmapMode(scanType: string): string {
    RemoveFirst(scanType, "nmap-")
  }

  /** The scan started for `ip`: a deep scan for the native type, else an nmap scan. */
  function Launch(scanType: string, ip: string): (c: ApiCall)
    ensures c.ip == ip
    ensures c.RunDeepScan? <==> scanType == Native
    ensures c.RunNmapScan? <==> scanType != Native
  {
    if scanType == Native then RunDeepScan(ip) else RunNmapScan(NmapMode(scanType), ip)
  }

  /** The cancel call for `ip`, matching the kind of scan the type launches. */
  function CancelCall(scanType: string, ip: string): (c: ApiCall)
    ensures c.ip == ip
    ensures c.CancelDeepScan? <==> scanType == Native
    ensures c.CancelNmapScan? <==> scanType != Native
  {
    if scanType == Native then CancelDeepScan(ip) else CancelNmapScan(ip)
  }

  /** One launch per IP, in order. */
  function Launches(scanType: string, ips: seq<string>): (r: seq<ApiCall>)
    ensures |r| == |ips|
    ensures forall k :: 0 <= k < |ips| ==> r[k] == Launch(scanType, ips[k])
  {
    seq(|ips|, k requires 0 <= k < |ips| => Launch(scanType, ips[k]))
  }

  /** One cancel call per IP, in order. */
  function Cancels(scanType: string, ips: seq<string>): (r: seq<ApiCall>)
    ensures |r| == |ips|
    ensures forall k :: 0 <= k < |ips| ==> r[k] == CancelCall(scanType, ips[k])
  {
    seq(|ips|, k requires 0 <= k < |ips| => CancelCall(scanType, ips[k]))
  }

  /** `Set.add`: an IP already present is not added again. */
  function Added(s: seq<string>, ip: string): seq<string> {
    if ip in s then s else s + [ip]
  }

  /** `Set.delete`. */
  function Without(s: seq<string>, ip: string): (r: seq<string>)
    decreases |s|
  {
    if s == [] then []
    else
      var init := Without(s[..|s| - 1], ip);
      if s[|s| - 1] == ip then init else init + [s[|s| - 1]]
  }

  /** Deleting keeps every other member, in order, and removes exactly one element when present. */
  lemma {:induction false} WithoutFacts(s: seq<string>, ip: string)
    ensures forall x :: x in Without(s, ip) <==> x in s && x != ip
    ensures NoDuplicates(s) ==> NoDuplicates(Without(s, ip))
    ensures NoDuplicates(s) && ip in s ==> |Without(s, ip)| == |s| - 1
    ensures ip !in s ==> Without(s, ip) == s
    decreases |s|
  {
    if s != [] {
      var init := s[..|s| - 1];
      var last := s[|s| - 1];
      WithoutFacts(init, ip);
      assert s == init + [last];
      if NoDuplicates(s) {
        assert NoDuplicates(init);
        assert last !in init;
        if ip in s && ip != last {
          assert ip in init;
        }
      }
    }
  }

  /** Where a pump stops: the active set, the rest of the queue, and the IPs it took, in order. */
  datatype Pumped = Pumped(active: seq<string>, queue: seq<string>, dequeued: seq<string>)

  /** The `while` loop of `pump`: take from the queue while fewer than three are active. */
  function PumpFrom(active: seq<string>, queue: seq<string>): Pumped
    decreases |queue|
  {
    if |active| >= MaxActive || queue == [] then Pumped(active, queue, [])
    else
      var r := PumpFrom(Added(active, queue[0]), queue[1..]);
      Pumped(r.active, r.queue, [queue[0]] + r.dequeued)
  }

  /** Adding to a duplicate-free set keeps it duplicate-free and adds at most one member. */
  lemma AddedFacts(s: seq<string>, ip: string)
    ensures NoDuplicates(s) ==> NoDuplicates(Added(s, ip))
    ensures |Added(s, ip)| <= |s| + 1
    ensures forall x :: x in Added(s, ip) <==> x in s || x == ip
  {
  }

  /** A pump takes a prefix of the queue and leaves the rest. */
  lemma {:induction false} PumpFromSplit(active: seq<string>, queue: seq<string>)
    ensures queue == PumpFrom(active, queue).dequeued + PumpFrom(active, queue).queue
    decreases |queue|
  {
    if |active| < MaxActive && queue != [] {
      PumpFromSplit(Added(active, queue[0]), queue[1..]);
      assert queue == [queue[0]] + queue[1..];
    }
  }

  /** A pump never makes more than three active, and stops short of three only when the queue runs out. */
  lemma {:induction false} PumpFromBound(active: seq<string>, queue: seq<string>)
    ensures |active| <= MaxActive ==> |PumpFrom(active, queue).active| <= MaxActive
    ensures |PumpFrom(active, queue).active| < MaxActive ==> PumpFrom(active, queue).queue == []
    decreases |queue|
  {
    if |active| < MaxActive && queue != [] {
      AddedFacts(active, queue[0]);
      PumpFromBound(Added(active, queue[0]), queue[1..]);
    }
  }

  /** After a pump the active set is still duplicate-free and holds exactly the old members and the IPs taken. */
  lemma {:induction false} PumpFromMembers(active: seq<string>, queue: seq<string>)
    ensures NoDuplicates(active) ==> NoDuplicates(PumpFrom(active, queue).active)
    ensures forall x :: x in PumpFrom(active, queue).active <==> x in active || x in PumpFrom(active, queue).dequeued
    decreases |queue|
  {
    if |active| < MaxActive && queue != [] {
      AddedFacts(active, queue[0]);
      PumpFromMembers(Added(active, queue[0]), queue[1..]);
    }
  }

  /** The IPs are pairwise distinct and none is both active and queued. */
  predicate Disjoint(active: seq<string>, queue: seq<string>) {
    NoDuplicates(active) && NoDuplicates(queue) && forall x :: x in active ==> x !in queue
  }

  /** With distinct IPs, a pump moves IPs from the queue to the active set without losing or repeating any. */
  lemma {:induction false} PumpFromDistinct(active: seq<string>, queue: seq<string>)
    requires Disjoint(active, queue)
    ensures var r := PumpFrom(active, queue);
      && r.active == active + r.dequeued
      && Disjoint(r.active, r.queue)
      && |r.active| + |r.queue| == |active| + |queue|
    decreases |queue|
  {
    if |active| < MaxActive && queue != [] {
      var q := queue[0];
      assert q !in active;
      var a := active + [q];
      assert queue == [q] + queue[1..];
      assert q !in queue[1..];
      assert Disjoint(a, queue[1..]);
      PumpFromDistinct(a, queue[1..]);
    }
  }

  /** The orchestrator's `state`. */
  class ScanAllOrchestrator {
    var scanType: string
    var isRunning: bool
    var queue: seq<string>
    var active: seq<string>
    var total: nat
    var completed: nat
    var hostProgress: map<string, int>

    /** At most three scans at once, an IP active at most once, nothing pending when idle. */
    ghost predicate Valid()
      reads this
    {
      && |active| <= MaxActive
      && NoDuplicates(active)
      && (!isRunning ==> active == [] && queue == [])
    }

    /** No free slot is left while IPs wait. */
    ghost predicate Saturated()
      reads this
    {
      |active| < MaxActive ==> queue == []
    }

    /** During a run over distinct IPs each one is completed, active or queued, exactly once. */
    ghost predicate Balanced()
      reads this
    {
      Disjoint(active, queue) && completed + |active| + |queue| == total
    }

    constructor()
      ensures Valid() && Saturated()
      ensures scanType == Native && !isRunning && queue == [] && active == []
      ensures total == 0 && completed == 0 && hostProgress == map[]
    {
      scanType := Native;
      isRunning := false;
      queue := [];
      active := [];
      total := 0;
      completed := 0;
      hostProgress := map[];
    }

    method SetType(t: string)
      modifies this
      ensures scanType == t
      ensures isRunning == old(isRunning) && queue == old(queue) && active == old(active)
      ensures total == old(total) && completed == old(completed) && hostProgress == old(hostProgress)
    {
      scanType := t;
    }

    /** `pump`: fill the free slots from the queue, launching one scan per IP taken. */
    method Pump() returns (calls: seq<ApiCall>)
      requires Valid()
      modifies this
      ensures Valid()
      ensures scanType == old(scanType) && isRunning == old(isRunning)
      ensures total == old(total) && completed == old(completed) && hostProgress == old(hostProgress)
      ensures !isRunning ==> calls == [] && active == old(active) && queue == old(queue)
      ensures isRunning ==>
        var r := PumpFrom(old(active), old(queue));
        && active == r.active && queue == r.queue
        && calls == Launches(scanType, r.dequeued)
        && Saturated()
    {
      calls := [];
      if !isRunning {
        return;
      }
      ghost var taken: seq<string> := [];
      ghost var final := PumpFrom(active, queue);
      while |active| < MaxActive && |queue| > 0
        invariant |active| <= MaxActive && NoDuplicates(active) && isRunning
        invariant final.active == PumpFrom(active, queue).active && final.queue == PumpFrom(active, queue).queue
        invariant final.dequeued == taken + PumpFrom(active, queue).dequeued
        invariant calls == Launches(scanType, taken)
        invariant scanType == old(scanType)
        invariant total == old(total) && completed == old(completed) && hostProgress == old(hostProgress)
        decreases |queue|
      {
        var ip := queue[0];
        AddedFacts(active, ip);
        ghost var rest := PumpFrom(Added(active, ip), queue[1..]);
        assert final.dequeued == taken + [ip] + rest.dequeued;
        queue := queue[1..];
        if ip !in active {
          active := active + [ip];
        }
        calls := calls + [Launch(scanType, ip)];
        assert Launches(scanType, taken + [ip]) == Launches(scanType, taken) + [Launch(scanType, ip)];
        taken := taken + [ip];
      }
      PumpFromBound(old(active), old(queue));
    }

    /** `start`: queue the hosts' IPs in order and pump; no hosts, no change. */
    method Start(hostIps: seq<string>) returns (calls: seq<ApiCall>)
      requires Valid() && Saturated()
      modifies this
      ensures Valid() && Saturated()
      ensures scanType == old(scanType)
      ensures hostIps == [] ==>
        && calls == [] && isRunning == old(isRunning) && queue == old(queue) && active == old(active)
        && total == old(total) && completed == old(completed) && hostProgress == old(hostProgress)
      ensures hostIps != [] ==>
        var r := PumpFrom(old(active), hostIps);
        && isRunning && total == |hostIps| && completed == 0 && hostProgress == map[]
        && active == r.active && queue == r.queue
        && calls == Launches(scanType, r.dequeued)
      ensures hostIps != [] && !old(isRunning) && NoDuplicates(hostIps) ==> Balanced()
    {
      calls := [];
      if |hostIps| == 0 {
        return;
      }
      isRunning := true;
      queue := hostIps;
      total := |queue|;
      completed := 0;
      hostProgress := map[];
      if active == [] && NoDuplicates(hostIps) {
        PumpFromDistinct(active, queue);
      }
      calls := Pump();
    }

    /** `cancel`: one cancel call per active IP, in insertion order; then idle with nothing pending. */
    method Cancel() returns (calls: seq<ApiCall>)
      requires Valid()
      modifies this
      ensures Valid() && Saturated()
      ensures !isRunning && active == [] && queue == []
      ensures calls == Cancels(old(scanType), old(active))
      ensures scanType == old(scanType) && total == old(total) && completed == old(completed)
      ensures hostProgress == old(hostProgress)
    {
      isRunning := false;
      calls := [];
      for i := 0 to |active|
        invariant calls == Cancels(scanType, active[..i])
      {
        assert Cancels(scanType, active[..i + 1]) == Cancels(scanType, active[..i]) + [CancelCall(scanType, active[i])];
        calls := calls + [CancelCall(scanType, active[i])];
      }
      assert active[..|active|] == active;
      active := [];
      queue := [];
    }

    /**
     * `onHostDone`: ignored unless running with `ip` active; otherwise the IP
     * is completed and its progress dropped, and the run either ends (nothing
     * active or queued) or is refilled.
     */
    method OnHostDone(ip: string) returns (calls: seq<ApiCall>)
      requires Valid() && Saturated()
      modifies this
      ensures Valid() && Saturated()
      ensures scanType == old(scanType) && total == old(total)
      ensures !old(isRunning) || ip !in old(active) ==>
        && calls == [] && isRunning == old(isRunning) && queue == old(queue) && active == old(active)
        && completed == old(completed) && hostProgress == old(hostProgress)
      ensures old(isRunning) && ip in old(active) ==>
        var rest := Without(old(active), ip);
        && completed == old(completed) + 1
        && hostProgress == old(hostProgress) - {ip}
        && (rest == [] && old(queue) == [] ==> !isRunning && active == [] && queue == [] && calls == [])
        && (rest != [] || old(queue) != [] ==>
              var r := PumpFrom(rest, old(queue));
              isRunning && active == r.active && queue == r.queue && calls == Launches(scanType, r.dequeued))
      ensures old(isRunning) && old(Balanced()) ==> Balanced()
    {
      calls := [];
      if !isRunning || ip !in active {
        return;
      }
      WithoutFacts(active, ip);
      ghost var wasBalanced := Balanced();
      active := Without(active, ip);
      hostProgress := hostProgress - {ip};
      completed := completed + 1;
      if |active| == 0 && |queue| == 0 {
        isRunning := false;
      } else {
        if wasBalanced {
          PumpFromDistinct(active, queue);
        }
        calls := Pump();
      }
    }

    /** `onHostProgress`: recorded only while running. */
    method OnHostProgress(ip: string, percent: int)
      modifies this
      ensures old(isRunning) ==> hostProgress == old(hostProgress)[ip := percent]
      ensures !old(isRunning) ==> hostProgress == old(hostProgress)
      ensures scanType == old(scanType) && isRunning == old(isRunning) && queue == old(queue)
      ensures active == old(active) && total == old(total) && completed == old(completed)
    {
      if !isRunning {
        return;
      }
      hostProgress := hostProgress[ip := percent];
    }
  }
}
