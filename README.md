# Network reconnaissance core, modelled in Dafny

This project models the core of a desktop network-reconnaissance tool. The tool has three parts: a Rust analysis engine, a Go reports engine, and an Electron application. The Electron side is split into a main process that runs passive tshark monitors and active scans, and a renderer that draws the host list and the network map. The model covers the logic that turns scan data into findings, graphs, reports and alerts. It leaves out the processes, sockets and user interface around that logic.

Module by module:

- `Models` (models.dfy): the records of the Rust engine, plus its JSON-RPC error codes.
- `Common` and `Text` (text.dfy) hold shared helpers:
  - `Option` and `Result`;
  - duplicate-free sequences and sorting by key;
  - the string operations the sources rely on (split, trim, case folding, integer parsing and printing).
- `Fingerprinting` and `FingerprintPatterns`: the Rust service fingerprinter.
  - Five detectors run in a fixed order, each updating one fingerprint record.
  - Then comes a port-table fallback and the 0.99 cap.
  - Every regular expression is written out as the extractor it computes.
  - Confidence is counted in hundredths.
- `SnapshotDiff`: the Rust baseline/current diff. It yields new hosts, missing hosts and per-host port changes.
- `Topology`: the Rust topology builder.
  - Each host is classified and grouped by /24.
  - Within each group, "same-subnet" edges form a complete graph.
  - "gateway" edges are deduplicated only against other gateway edges.
- `Profiles`: scan-profile validation.
  - This includes the port-range grammar.
  - Safe mode is enforced by clamping.
  - The profile store (`ProfileManager`) is a class over a name → profile map.
- `ReportSummary`: `GenerateSummary` of the Go reports engine, as its loop builds it.
- `Sanitize`: report sanitisation. MAC addresses keep their vendor half, IPv4 addresses lose their host octet, and hostnames become digests.
- Passive monitors: `ArpSpoof`, `CredentialSniffer`, `DnsHarvest`, `RogueDhcp`, `RogueDns` and `TsharkVlan`.
  - Each takes one tshark line at a time, already split into its fields.
  - Module-level tables are fields of a class.
- `PcapStats`: live-capture statistics, the class behind `processPacket` and `resetStats`.
- `DeepScanner`: the banner/certificate classifier of the deep scanner.
- `OsGuess`: the OS guess, the ARP table and the vendor-lookup key of the active scanner.
- `NmapImport`: import of nmap XML reports into the host list.
- `ScanAll`: the renderer's "scan all" orchestrator. At most three scans run at once, with a queue.
- `RendererIndex`: the HTML escaping, the security badge and the CVSS severity bands of the main view. It also models the handler that records streamed deep-scan results.
- `RendererTopology`: the graph elements of the renderer's network map.

Where a source loops or updates state in place, the model does the same with a method or a class. Each such method is proved equal to a specification function, and the properties are proved as lemmas about that function.

## Model

| member | source | states |
|---|---|---|
| Fingerprinting.Blank | engines/rust-core/src/fingerprint.rs:9-18 | a fresh fingerprint carries the port's number, confidence 0 and no evidence |
| Fingerprinting.ServerStep | engines/rust-core/src/fingerprint.rs:48-65 | without a `Server:` header nothing changes; with one the protocol becomes "http", the trimmed value is logged as evidence, and a known web server gives its name, its version and 0.90 while any other value becomes the product at 0.70 |
| Fingerprinting.PoweredByStep | engines/rust-core/src/fingerprint.rs:67-82 | without `X-Powered-By:` nothing changes; with it the protocol becomes "http" and the value is logged; an existing confidence is boosted by 0.05 up to 0.95 with the product kept, otherwise the value becomes the product at 0.60 |
| Fingerprinting.TitleApp | engines/rust-core/src/fingerprint.rs:87-100 | a title names an application iff it contains wordpress, grafana or jenkins; WordPress is checked first and scores 0.80, the others 0.85 |
| Fingerprinting.TitleStep | engines/rust-core/src/fingerprint.rs:84-102 | the `<title>` rule never changes protocol or version; a title is logged, and a title naming WordPress, Grafana or Jenkins sets that product and raises confidence to at least 0.80/0.85 |
| Fingerprinting.TryHttp | engines/rust-core/src/fingerprint.rs:47-103 | the HTTP detector keeps the port and certificate, only appends evidence, sets protocol "http" iff a header rule fires, makes confidence positive exactly when one of its three rules fires, and states the product, version and confidence each combination of rules yields |
| Fingerprinting.TrySsh | engines/rust-core/src/fingerprint.rs:105-129 | without an `SSH-2.0-` banner nothing changes; with one the protocol is "ssh" and the identification is logged; OpenSSH gives its version at 0.95, Dropbear (when OpenSSH does not match) its version or "" at 0.90, anything else the identification as product at 0.80 |
| Fingerprinting.CertOf | engines/rust-core/src/fingerprint.rs:145-153 | the certificate record has the CN as subject, the trimmed issuer and expiry captures ("" when absent), expiry days 0 and no key size or signature |
| Fingerprinting.CertEvidence | engines/rust-core/src/fingerprint.rs:152-173 | the TLS evidence is the CN line, then the issuer line and the expiry line exactly when each capture exists |
| Fingerprinting.TryTls | engines/rust-core/src/fingerprint.rs:131-175 | the TLS detector reads only `details`; it renames the protocol to "tls" exactly when a marker is present and the protocol is still "unknown"; it raises confidence only when a CN is captured |
| Fingerprinting.TrySmtp | engines/rust-core/src/fingerprint.rs:177-203 | without a one-line `220` greeting nothing changes; with one the protocol is "smtp" and Postfix (0.90), Exim with its version (0.90), Microsoft Exchange (0.85) or the greeting itself (0.70) is chosen in that order |
| Fingerprinting.TryFtp | engines/rust-core/src/fingerprint.rs:205-228 | without a `220` FTP greeting nothing changes; with one the protocol is "ftp", and vsftpd or ProFTPD with its version (0.90), else the matched keyword (0.70), is the product |
| Fingerprinting.PortTable | engines/rust-core/src/fingerprint.rs:231-254 | every table confidence lies in 0.10..0.30 |
| Fingerprinting.PortTableDefault | engines/rust-core/src/fingerprint.rs:253 | the protocol is "unknown" iff the port is not in the table, and then the entry is ("unknown", "Unknown", 0.1) |
| Fingerprinting.ApplyPortHeuristic | engines/rust-core/src/fingerprint.rs:230-261 | the fallback keeps the port, appends evidence and sets confidence within 0.10..0.30 |
| Fingerprinting.Detected | engines/rust-core/src/fingerprint.rs:9-29 | the detector chain keeps the port and leaves confidence 0 or within 0.60..0.95 |
| Fingerprinting.Uncapped | engines/rust-core/src/fingerprint.rs:9-34 | the fallback only runs when detectors left confidence 0, so a detected fingerprint is kept as is, and the result lies in 0.10..0.95 |
| Fingerprinting.FingerprintOf | engines/rust-core/src/fingerprint.rs:8-42 | the 0.99 cap never changes the result: it keeps the port and lies in 0.10..0.95 |
| Fingerprinting.FingerprintAll | engines/rust-core/src/fingerprint.rs:5-45 | one fingerprint per input port |
| Fingerprinting.FingerprintPort | engines/rust-core/src/fingerprint.rs:8-42 | the loop body computes the port's fingerprint as defined by the detector chain |
| Fingerprinting.Analyze | engines/rust-core/src/fingerprint.rs:5-45 | `analyze` returns the per-port fingerprints in port order, not reading the host |
| Fingerprinting.FingerprintAllEntry | engines/rust-core/src/fingerprint.rs:5-45 | entry i is port i's fingerprint, carries its port number and has confidence within 0.10..0.95 |
| Fingerprinting.ConfidenceBounds | engines/rust-core/src/fingerprint.rs:31-39 | detectors leave confidence 0 or within 0.60..0.95, so the 0.99 cap never applies and the result lies in 0.10..0.95 |
| Fingerprinting.PortPreserved | engines/rust-core/src/fingerprint.rs:8-42 | the result keeps the port and extends the detectors' evidence |
| Fingerprinting.FallbackIffNothingFired | engines/rust-core/src/fingerprint.rs:31-34 | the port table is used exactly when no detector fired, and then it decides protocol, product and confidence and adds a "Port heuristic" line |
| Fingerprinting.FtpOverridesEarlierDetectors | engines/rust-core/src/fingerprint.rs:25-29 | an FTP greeting wins over every earlier detector, with product vsftpd when that word occurs |
| Fingerprinting.SmtpWithoutFtp | engines/rust-core/src/fingerprint.rs:25-29 | without an FTP match an SMTP greeting decides the protocol |
| Fingerprinting.SshWithoutMailOrFtp | engines/rust-core/src/fingerprint.rs:25-29 | an SSH banner decides the protocol unless SMTP or FTP fires later |
| Fingerprinting.NoBannerNoGreeting | engines/rust-core/src/fingerprint.rs:20-22 | with no banner the text starts with a space, so neither `^220` pattern matches |
| FingerprintPatterns.KeyEnd | engines/rust-core/src/fingerprint.rs:49 | a case-insensitive key matched at p ends after p and within the text |
| FingerprintPatterns.LastCaptureStart | engines/rust-core/src/fingerprint.rs:49 | greedy `\s*` backtracking: the capture starts at the last offset whose character the capture class accepts |
| FingerprintPatterns.SpaceThenCapture | engines/rust-core/src/fingerprint.rs:49 | a `\s*([^stop]+)` capture is nonempty and holds no stop character |
| FingerprintPatterns.FindCaptureLeftmost | engines/rust-core/src/fingerprint.rs:49-50 | the header search succeeds iff some position matches, and reports the leftmost |
| FingerprintPatterns.TitleAt | engines/rust-core/src/fingerprint.rs:85 | a captured title is nonempty and holds no `<` |
| FingerprintPatterns.TitleFrom | engines/rust-core/src/fingerprint.rs:85-86 | the title search succeeds iff some position matches |
| FingerprintPatterns.SshAt | engines/rust-core/src/fingerprint.rs:106 | an SSH capture is nonempty and holds no whitespace |
| FingerprintPatterns.SshFrom | engines/rust-core/src/fingerprint.rs:106-107 | the SSH search succeeds iff some position matches, and returns that position's capture |
| FingerprintPatterns.FindLitCI | engines/rust-core/src/fingerprint.rs:80-82 | the case-insensitive literal search returns the first occurrence, or none when there is none |
| FingerprintPatterns.VersionAfter | engines/rust-core/src/fingerprint.rs:112-119 | a `word SEP (class+)?` pattern matches iff the word occurs; the version holds only class characters |
| FingerprintPatterns.KnownWebServer | engines/rust-core/src/fingerprint.rs:56-60 | the product is a known web server the value starts with (ignoring case), and there is none iff the value starts with none of them |
| FingerprintPatterns.KnownWebServerFrom | engines/rust-core/src/fingerprint.rs:56-60 | the alternatives are tried in pattern order; the version holds only digits and dots |
| FingerprintPatterns.SmtpGreeting | engines/rust-core/src/fingerprint.rs:178-179 | `^220[\s-](.+)$` matches iff the text is one line starting with a 220 greeting, capturing everything after it |
| FingerprintPatterns.FtpWordAt | engines/rust-core/src/fingerprint.rs:206 | the FTP alternative matched at q is the text at q |
| FingerprintPatterns.LineEnd | engines/rust-core/src/fingerprint.rs:206 | `.*` stops at the first line end |
| FingerprintPatterns.FtpKeywordPosRightmost | engines/rust-core/src/fingerprint.rs:206 | greedy `.*` makes the keyword the rightmost one on the first line |
| FingerprintPatterns.FtpKeyword | engines/rust-core/src/fingerprint.rs:206-207 | the FTP pattern matches only after a 220 greeting |
| FingerprintExamples.HttpRulesDecide | engines/rust-core/src/fingerprint.rs:25-29 | when no SSH, TLS, SMTP or FTP rule can fire, the HTTP detector alone decides the detected fingerprint |
| FingerprintExamples.SshRuleDecides | engines/rust-core/src/fingerprint.rs:25-29 | when no HTTP, TLS, SMTP or FTP rule can fire, the SSH detector alone decides the detected fingerprint |
| FingerprintExamples.DetectedReported | engines/rust-core/src/fingerprint.rs:31-39 | a detected confidence in (0, 0.99] reaches the result unchanged: neither the fallback nor the cap applies |
| FingerprintExamples.KnownServerReported | engines/rust-core/src/fingerprint.rs:47-65 | a lone `Server:` header naming a known web server yields protocol "http", that server's name and version, confidence 0.90 |
| FingerprintExamples.SshBannerReported | engines/rust-core/src/fingerprint.rs:105-129 | a lone SSH identification yields exactly what the SSH detector makes of it |
| FingerprintExamples.NginxServerHeader | engines/rust-core/src/fingerprint.rs:49-50 | the header pattern captures "nginx/1.25.3" from the test's HTTP response |
| FingerprintExamples.NginxKnown | engines/rust-core/src/fingerprint.rs:56-60 | "nginx/1.25.3" is the known server nginx, version 1.25.3 |
| FingerprintExamples.HttpServerHeader | engines/rust-core/src/fingerprint.rs:289-298 | the port-80 nginx response fingerprints as http / nginx / 1.25.3 at 0.90, as the test expects |
| FingerprintExamples.OpenSshIdentification | engines/rust-core/src/fingerprint.rs:106-107 | the SSH pattern captures "OpenSSH_8.9p1" from the test banner, and neither greeting pattern matches |
| FingerprintExamples.OpenSshVersion | engines/rust-core/src/fingerprint.rs:112-114 | the OpenSSH version pattern reads "8.9p1" |
| FingerprintExamples.SshOpenSsh | engines/rust-core/src/fingerprint.rs:300-308 | the OpenSSH banner fingerprints as ssh / OpenSSH / 8.9p1 at 0.95, as the test expects |
| FingerprintExamples.DropbearIdentification | engines/rust-core/src/fingerprint.rs:106-107 | the SSH pattern captures "dropbear_2022.83" from the test banner |
| FingerprintExamples.DropbearVersion | engines/rust-core/src/fingerprint.rs:112-121 | the OpenSSH pattern does not match, the word dropbear occurs, and its version pattern reads "2022.83" |
| FingerprintExamples.SshDropbear | engines/rust-core/src/fingerprint.rs:310-316 | the Dropbear banner fingerprints as ssh / Dropbear / 2022.83 at 0.90, as the test expects |
| FingerprintExamples.TlsMarker | engines/rust-core/src/fingerprint.rs:132-134 | the test's details carry the TLS marker |
| FingerprintExamples.TlsCommonName | engines/rust-core/src/fingerprint.rs:143-145 | the CN pattern captures "example.com" from the test's details |
| FingerprintExamples.TlsFingerprint | engines/rust-core/src/fingerprint.rs:342-349 | the port-443 details produce a certificate whose subject is example.com, at confidence at least 0.70, as the test expects |
| FingerprintExamples.VsftpdKeyword | engines/rust-core/src/fingerprint.rs:206-207 | the FTP pattern matches the greeting "220 (vsFTPd 3.0.5)" |
| FingerprintExamples.VsftpdVersion | engines/rust-core/src/fingerprint.rs:212-217 | the vsftpd version pattern reads "3.0.5" |
| FingerprintExamples.VsftpdFingerprint | engines/rust-core/src/fingerprint.rs:205-228 | the vsftpd greeting fingerprints as ftp / vsftpd / 3.0.5 at 0.90 |
| FingerprintExamples.NothingToRead | engines/rust-core/src/fingerprint.rs:31-34 | with no banner and no details no detector fires and the port table decides protocol, product and confidence |
| FingerprintExamples.PortHeuristicFallback | engines/rust-core/src/fingerprint.rs:318-325 | port 3306 with nothing to read fingerprints as mysql / MySQL at 0.30, as the test expects |
| FingerprintExamples.UnknownPort | engines/rust-core/src/fingerprint.rs:327-333 | port 12345 with nothing to read fingerprints as unknown at 0.10, as the test expects |
| SnapshotDiff.IndexByIp | engines/rust-core/src/diff.rs:5-11 | the map's keys are exactly the snapshot's IPs and each maps to a host of the snapshot with that IP |
| SnapshotDiff.IndexKeepsLast | engines/rust-core/src/diff.rs:5-11 | with duplicate IPs the map keeps the last record for that IP |
| SnapshotDiff.HostsOf | engines/rust-core/src/diff.rs:17-26 | one record per IP of the set difference, each the mapped record, in hash order |
| SnapshotDiff.PortChangeOf | engines/rust-core/src/diff.rs:31-46 | for a shared IP a PortChange is produced iff the port sets differ, with added = current − baseline and removed = baseline − current |
| SnapshotDiff.CollectPortChanges | engines/rust-core/src/diff.rs:29-47 | one correct PortChange per shared IP whose port sets differ, and no IP twice |
| SnapshotDiff.ComputeDiff | engines/rust-core/src/diff.rs:4-72 | new hosts are the current records of IPs not in the baseline, missing hosts the baseline records of IPs not current, port changes as above, banner/TLS lists empty, summary counts equal the list lengths |
| SnapshotDiff.PortDeltaRebuildsCurrent | engines/rust-core/src/diff.rs:34-38 | (baseline − removed) ∪ added is the current port set, and added and removed are disjoint |
| SnapshotDiff.ChangedIffPortSetsDiffer | engines/rust-core/src/diff.rs:40 | a shared host is changed iff its two port sets differ |
| SnapshotDiff.SelfDiffIsEmpty | engines/rust-core/src/diff.rs:17-47 | a snapshot diffed against itself has no new, missing or changed hosts |
| SnapshotDiff.SwapExchangesNewAndMissing | engines/rust-core/src/diff.rs:17-26 | new hosts of (B, C) are the missing hosts of (C, B) and vice versa; changed hosts are symmetric |
| SnapshotDiff.CurrentSplitsIntoNewAndShared | engines/rust-core/src/diff.rs:13-30 | the number of new plus shared IPs equals the number of current IPs |
| Topology.AfterLastIsLastPiece | engines/rust-core/src/topology.rs:118 | `rsplit('.').next()` is the longest dot-free suffix |
| Topology.ParseU8 | engines/rust-core/src/topology.rs:119 | `parse::<u8>` succeeds only with a value of at most 255 |
| Topology.GatewayIffLastOctet | engines/rust-core/src/topology.rs:117-124 | an address ending in ".n" is a likely gateway iff n is 1 or 254 |
| Topology.ClassifyNode | engines/rust-core/src/topology.rs:66-115 | the class is one of router, server, iot, workstation, unknown |
| Topology.ClassificationOrder | engines/rust-core/src/topology.rs:70-114 | each outcome is the first rule that fires: gateway address or network vendor, then server ports, IoT vendor, workstation ports, else unknown |
| Topology.LabelOf | engines/rust-core/src/topology.rs:11-15 | the label is the IP iff the hostname is empty, "Unknown" or the IP itself; otherwise it is the hostname |
| Topology.SubnetKey | engines/rust-core/src/topology.rs:129-131 | an address has a group key iff it splits into exactly four dot-separated parts |
| Topology.Members | engines/rust-core/src/topology.rs:126-136 | a group holds exactly the hosts with its key, in input order |
| Topology.Groups | engines/rust-core/src/topology.rs:126-136 | the keys are those with at least one member, each mapped to its members |
| Topology.GroupBySubnet | engines/rust-core/src/topology.rs:126-136 | the loop builds exactly the grouping |
| Topology.Row | engines/rust-core/src/topology.rs:31-37 | row i holds an edge from host i to each later host, "same-subnet" |
| Topology.AddSameSubnetEdges | engines/rust-core/src/topology.rs:30-38 | the double loop appends the group's same-subnet edges |
| Topology.FindGatewayEdge | engines/rust-core/src/topology.rs:46-49 | the duplicate check finds a gateway edge between the two IPs in either direction |
| Topology.AddGatewayEdgesFrom | engines/rust-core/src/topology.rs:43-58 | the inner gateway loop appends the edges of one likely gateway |
| Topology.AddGatewayEdges | engines/rust-core/src/topology.rs:41-60 | the gateway double loop appends the group's gateway edges |
| Topology.NodesOf | engines/rust-core/src/topology.rs:9-24 | one node per host |
| Topology.NodesOfEntry | engines/rust-core/src/topology.rs:17-23 | node i carries host i's IP, ports and OS |
| Topology.Build | engines/rust-core/src/topology.rs:4-64 | `build` returns the nodes of all hosts and the edges of every group, visited in a hash order that lists each group once |
| Topology.BuildNodes | engines/rust-core/src/topology.rs:9-24 | the node loop builds the node list |
| Topology.MakeNode | engines/rust-core/src/topology.rs:10-23 | the loop body builds the node of one host |
| Topology.BuildEdges | engines/rust-core/src/topology.rs:27-61 | the edge loop visits every group once and builds the edges of each |
| Topology.TriangleSize | engines/rust-core/src/topology.rs:30-38 | the first i rows hold i(2n−i−1)/2 edges |
| Topology.SameSubnetEdgeCount | engines/rust-core/src/topology.rs:30-38 | a group of n hosts gets n(n−1)/2 same-subnet edges |
| Topology.TriangleSource | engines/rust-core/src/topology.rs:30-38 | every same-subnet edge joins hosts a < b, with a as the source |
| Topology.TrianglePair | engines/rust-core/src/topology.rs:30-38 | every pair a < b gets its same-subnet edge |
| Topology.SameSubnetEdgesArePairs | engines/rust-core/src/topology.rs:30-38 | an edge is a same-subnet edge iff it joins a pair a < b of the group |
| Topology.GroupEdgesAdd | engines/rust-core/src/topology.rs:28-60 | a group only appends edges, and each joins two of its own members |
| Topology.GroupsAreKeyed | engines/rust-core/src/topology.rs:126-136 | every member of a group has that group's key |
| Topology.EdgesStayInSubnet | engines/rust-core/src/topology.rs:28-61 | every edge joins two hosts of one subnet; it is same-subnet or gateway; a gateway edge starts at a likely gateway and joins two different IPs |
| Topology.BuildEdgesStayInSubnet | engines/rust-core/src/topology.rs:27-61 | the same for the edges `build` returns |
| Topology.VendorRouterHasNoGatewayEdges | engines/rust-core/src/topology.rs:74-82 | a host classed as router only by vendor is the source of no gateway edge |
| Topology.PassWithoutGateways | engines/rust-core/src/topology.rs:41-42 | a group without a likely gateway gets no gateway edges |
| Topology.GatewayFromCount | engines/rust-core/src/topology.rs:43-56 | a likely gateway in a group of distinct IPs adds one edge per other member |
| Topology.NoGatewayInSameSubnetEdges | engines/rust-core/src/topology.rs:35-48 | same-subnet edges never trip the gateway duplicate check |
| Topology.LoneGatewayEdgeCount | engines/rust-core/src/topology.rs:28-60 | a group of n distinct IPs with one likely gateway gets n(n−1)/2 + (n−1) edges |
| Topology.GroupEdgesLocal | engines/rust-core/src/topology.rs:46-49 | the duplicate check never matches other groups' edges, so each group's edges are what it would build alone |
| Topology.EdgesPerGroup | engines/rust-core/src/topology.rs:28-61 | the edge list is the concatenation of each group's own edges in visiting order |
| Topology.BuildEdgesPerGroup | engines/rust-core/src/topology.rs:27-61 | the same for `build`'s grouping |
| Topology.EmptyBuild | engines/rust-core/src/topology.rs:4-64 | no hosts give no nodes and no groups, hence no edges |
| Profiles.ItemLen | engines/rust-core/src/profiles.rs:178 | an item `\d{1,5}(-\d{1,5})?` that can be followed by a comma or the end covers a nonempty prefix |
| Profiles.ValidatePortRange | engines/rust-core/src/profiles.rs:177-206 | the validator answers exactly the port-range acceptance predicate: pattern match, then every segment's parts in 1..65535 with start ≤ end |
| Profiles.CheckSegments | engines/rust-core/src/profiles.rs:184-204 | the segment loop accepts iff every segment is acceptable, stopping at the first bad one |
| Profiles.CheckSegment | engines/rust-core/src/profiles.rs:185-203 | one segment is trimmed, split on '-', every part parsed as u32 in 1..65535, and a two-part range needs start ≤ end |
| Profiles.CheckParts | engines/rust-core/src/profiles.rs:187-195 | every part parses as a u32 within 1..65535 |
| Profiles.ItemShape | engines/rust-core/src/profiles.rs:178 | the text of a matched item is well formed, comma-free, and starts and ends with a digit |
| Profiles.SegmentsWellFormed | engines/rust-core/src/profiles.rs:178-185 | when the pattern matches, every comma-separated segment trims to a well-formed item |
| Profiles.AcceptedRangeShape | engines/rust-core/src/profiles.rs:177-206 | soundness: in an accepted range every segment is one port or a `lo-hi` pair with every number in 1..65535 and lo ≤ hi |
| Profiles.RenderedRangesAccepted | engines/rust-core/src/profiles.rs:177-206 | completeness: any nonempty list of valid ports and ordered ranges, written with commas, is accepted |
| Profiles.SplitRendered | engines/rust-core/src/profiles.rs:184 | splitting a written list on ',' gives back its items |
| Profiles.ParseDigits | engines/rust-core/src/profiles.rs:188 | `parse::<u32>` of one to five digits gives their value |
| Profiles.Utf8Len | engines/rust-core/src/profiles.rs:143 | `str::len` counts UTF-8 bytes, at least one per character |
| Profiles.EmptyRangeRejected | engines/rust-core/src/profiles.rs:178-180 | the empty range does not match the pattern |
| Profiles.NoMessagesIffValid | engines/rust-core/src/profiles.rs:137-173 | validation gives no messages iff the profile is valid |
| Profiles.MessagesDistinct | engines/rust-core/src/profiles.rs:142-166 | the seven messages are pairwise different |
| Profiles.NameMessages | engines/rust-core/src/profiles.rs:141-150 | the empty-name, too-long (over 64 bytes) and pattern messages each appear exactly when their rule is the first the name breaks |
| Profiles.RangeMessages | engines/rust-core/src/profiles.rs:153-157 | the empty-range message iff the range is empty; the format message iff it is nonempty and rejected |
| Profiles.BoundMessages | engines/rust-core/src/profiles.rs:160-167 | the timeout message iff the timeout is outside 100..60000, the chunk message iff the chunk size is outside 1..500; at most four messages |
| Profiles.Validate | engines/rust-core/src/profiles.rs:137-174 | `Ok([])` iff valid, else ERR_INVALID_PARAMS with the messages joined by "; " |
| Profiles.EnforceSafeMode | engines/rust-core/src/profiles.rs:208-217 | chunk size capped at 50, timeout raised to 1000, security audit off, values already inside kept, all else unchanged |
| Profiles.SafeModeIdempotent | engines/rust-core/src/profiles.rs:208-217 | applying safe mode twice is applying it once |
| Profiles.SafeModeKeepsValid | engines/rust-core/src/profiles.rs:208-217 | clamping never makes a valid profile invalid |
| Profiles.GetOutcome | engines/rust-core/src/profiles.rs:51-64 | `get` succeeds iff the name is stored, returning that profile, else ERR_PROFILE_NOT_FOUND |
| Profiles.CreateFailures | engines/rust-core/src/profiles.rs:66-72 | `create` fails iff the profile is invalid or the name is taken, validity checked first, and then the store is unchanged |
| Profiles.CreateThenGet | engines/rust-core/src/profiles.rs:66-87 | after a successful `create`, `get` finds the stored profile under its name and nothing else changes |
| Profiles.CreateInSafeMode | engines/rust-core/src/profiles.rs:73-77 | safe mode is applied after validation, so a valid profile is stored clamped |
| Profiles.UpdateAbsent | engines/rust-core/src/profiles.rs:91-94 | updating an absent name fails with ERR_PROFILE_NOT_FOUND before any other check |
| Profiles.UpdateRenameOntoExisting | engines/rust-core/src/profiles.rs:103-108 | renaming onto another existing profile fails and changes nothing |
| Profiles.UpdateRenames | engines/rust-core/src/profiles.rs:103-121 | a successful rename removes the old key and stores under the new name only |
| Profiles.UpdateInPlace | engines/rust-core/src/profiles.rs:110-121 | an update keeping the name replaces that one entry |
| Profiles.DeleteThenGet | engines/rust-core/src/profiles.rs:124-134 | `delete` fails iff the name is absent; afterwards `get` no longer finds it and other names are unaffected |
| Profiles.AsStoredValid | engines/rust-core/src/profiles.rs:73-77 | what is stored is valid and keeps its name |
| Profiles.CreateKeepsStoreValid | engines/rust-core/src/profiles.rs:66-87 | `create` keeps every stored profile valid and filed under its own name |
| Profiles.UpdateKeepsStoreValid | engines/rust-core/src/profiles.rs:90-122 | `update` keeps the store valid |
| Profiles.DeleteKeepsStoreValid | engines/rust-core/src/profiles.rs:124-134 | `delete` keeps the store valid |
| Profiles.LexTotal | engines/rust-core/src/profiles.rs:47 | the name order is total |
| Profiles.LexTrans | engines/rust-core/src/profiles.rs:47 | the name order is transitive |
| Profiles.Insert | engines/rust-core/src/profiles.rs:47 | inserting adds exactly the profile |
| Profiles.SortByName | engines/rust-core/src/profiles.rs:47 | sorting by lower-cased name is a permutation |
| Profiles.InsertSorted | engines/rust-core/src/profiles.rs:47 | insertion keeps the list sorted |
| Profiles.SortByNameSorted | engines/rust-core/src/profiles.rs:47 | the result is sorted by lower-cased name |
| Profiles.ListedProfiles | engines/rust-core/src/profiles.rs:21-49 | in a valid store the listing holds each stored profile once |
| Profiles.ProfileManager.constructor | engines/rust-core/src/profiles.rs:11-15 | a manager over a directory holding the given profiles |
| Profiles.ProfileManager.Get | engines/rust-core/src/profiles.rs:51-64 | `get` returns the get outcome and changes nothing |
| Profiles.ProfileManager.Create | engines/rust-core/src/profiles.rs:66-88 | result and new store are the create outcome of the old store |
| Profiles.ProfileManager.Update | engines/rust-core/src/profiles.rs:90-122 | result and new store are the update outcome of the old store |
| Profiles.ProfileManager.Delete | engines/rust-core/src/profiles.rs:124-135 | result and new store are the delete outcome of the old store |
| Profiles.ProfileManager.List | engines/rust-core/src/profiles.rs:21-49 | `list` returns a permutation of the stored profiles, read in directory order, sorted by lower-cased name |
| ReportSummary.GuessService | engines/go-reports/summary.go:134-174 | the name is "Unknown" exactly for ports outside the well-known list |
| ReportSummary.CountsTally | engines/go-reports/summary.go:77-86 | `portCounts[p]` is the number of visits of port p, deep-scan results and basic ports together |
| ReportSummary.SeverityTally | engines/go-reports/summary.go:67-73 | the two counters count the vulnerable results of severity "critical" and "warning" |
| ReportSummary.RiskyTally | engines/go-reports/summary.go:56-65 | `riskyMap` holds exactly the IPs with a vulnerable result, each with its own IP, its number of such results and the hostname of the first |
| ReportSummary.RiskyStep | engines/go-reports/summary.go:56-65 | a vulnerable result for an IP creates its entry with count 1 and the host's name, or adds one to the existing count; every other entry is unchanged |
| ReportSummary.ServicesTally | engines/go-reports/summary.go:78-80 | `portServices[p]` is the first nonempty deep-scan service name of p |
| ReportSummary.VulnIpsOfHosts | engines/go-reports/summary.go:54-74 | an IP has a vulnerable visit iff some host with that IP has a vulnerable deep-scan result |
| ReportSummary.CollectValues | engines/go-reports/summary.go:90-92 | the range loop appends the map's value under each enumerated key, in that order |
| ReportSummary.RiskiestHosts | engines/go-reports/summary.go:89-99 | the list is the map's values sorted by vulnerability count (descending), cut to ten |
| ReportSummary.TopTenOfSorted | engines/go-reports/summary.go:93-99 | a sorted permutation cut to ten holds distinct map entries, sorted, at most ten, and no left-out entry outranks a kept one |
| ReportSummary.CollectExposed | engines/go-reports/summary.go:102-114 | the loop collects, once each, exactly the ports seen three or more times with their count and service |
| ReportSummary.ExposedPorts | engines/go-reports/summary.go:101-117 | the exposure list is distinct, sorted by count (descending), and holds exactly the ports seen three or more times |
| ReportSummary.ExposuresMembers | engines/go-reports/summary.go:120-129 | an (IP, port) pair is a new exposure iff some port change of that IP added the port |
| ReportSummary.AppendAdded | engines/go-reports/summary.go:122-127 | the inner loop appends one exposure per added port |
| ReportSummary.NewExposures | engines/go-reports/summary.go:119-129 | the exposures of every port change when a baseline is given, none for a nil baseline |
| ReportSummary.VisitDeep | engines/go-reports/summary.go:56-80 | the body of the deep-scan loop is one tally step |
| ReportSummary.TallyDeepPorts | engines/go-reports/summary.go:55-81 | the deep-scan loop of one host advances the tally over its results |
| ReportSummary.TallyBasicPorts | engines/go-reports/summary.go:84-86 | the basic-port loop advances the tally over the ports |
| ReportSummary.TallyHost | engines/go-reports/summary.go:55-86 | one host: its deep-scan results, then its basic ports |
| ReportSummary.TallyHosts | engines/go-reports/summary.go:54-87 | the scan loop advances the empty tally over every host's visits |
| ReportSummary.TotalPorts | engines/go-reports/summary.go:44-47 | the port total is the sum of the hosts' port counts |
| ReportSummary.RiskyKeyed | engines/go-reports/summary.go:57-64 | every risky-map entry carries its own key as IP |
| ReportSummary.GenerateSummary | engines/go-reports/summary.go:39-132 | host and port totals, severity counts, top-ten risky hosts, sorted exposure list, and new exposures only with a baseline |
| ReportSummary.ExposedMeaning | engines/go-reports/summary.go:101-114 | an exposure entry is a port visited at least three times, with that count and its first service name or the guessed one |
| ReportSummary.RiskyMeaning | engines/go-reports/summary.go:56-65 | a risky-hosts entry is an IP with a vulnerable result, its number of such results and the hostname of the first |
| Common.SortDesc | engines/go-reports/summary.go:93-95 | the descending sort is a permutation |
| Common.SortDescSorted | engines/go-reports/summary.go:115-117 | its result is in descending order of the key |
| Sanitize.MaskedMacSplit | engines/go-reports/sanitize.go:34-35 | the masked MAC splits into the first three parts and three "XX" |
| Sanitize.SanitizeMacColon | engines/go-reports/sanitize.go:24-35 | a MAC of six ':'-parts keeps the first three and masks the rest, with ':' |
| Sanitize.SanitizeMacDash | engines/go-reports/sanitize.go:26-35 | otherwise six '-'-parts are masked the same way with '-' |
| Sanitize.SanitizeMacUnchanged | engines/go-reports/sanitize.go:19-32 | the empty MAC and every other shape are returned unchanged |
| Sanitize.SanitizeMac | engines/go-reports/sanitize.go:19-35 | a MAC of neither six ':'-parts nor six '-'-parts is returned unchanged; any other result ends in "XX" |
| Sanitize.MaskedIpSplit | engines/go-reports/sanitize.go:50 | the masked address splits into the first three parts and "x" |
| Sanitize.SanitizeIpMasked | engines/go-reports/sanitize.go:40-51 | a four-part address keeps its first three parts and ends in "x" |
| Sanitize.SanitizeIp | engines/go-reports/sanitize.go:40-51 | an address that is not four '.'-parts is returned unchanged; any other result ends in ".x" |
| Sanitize.SanitizeIpIdempotent | engines/go-reports/sanitize.go:40-51 | sanitising an address twice is sanitising it once |
| Sanitize.Hex | engines/go-reports/sanitize.go:61 | `%x` of a byte is two lower-case hex digits |
| Sanitize.HexRoundTrip | engines/go-reports/sanitize.go:61 | reading the two digits back gives the byte |
| Sanitize.HexPrefix | engines/go-reports/sanitize.go:61 | the hash prefix is eight lower-case hex digits |
| Sanitize.HexPrefixBytes | engines/go-reports/sanitize.go:60-61 | each digit pair of the prefix is one of the first four digest bytes |
| Sanitize.SanitizeHostname | engines/go-reports/sanitize.go:55-62 | "" and "Unknown" are kept; any other name becomes "host-" and the hex of the first four digest bytes |
| Sanitize.SanitizeHost | engines/go-reports/sanitize.go:10-14 | MAC, IP and hostname are rewritten by their rules and nothing else changes |
| ArpSpoof.ParseReply | src/main/arpSpoofDetector.js:19-25 | a reply is read only from a line of at least two fields with a source IP and MAC; each value is the first comma-separated one |
| ArpSpoof.OnLine | src/main/arpSpoofDetector.js:18-54 | a rejected line changes nothing; an accepted one binds the IP to its MAC and raises a critical alert when the IP had another MAC, else a warning for a gratuitous reply (source IP = target IP) |
| ArpSpoof.OnLineKeepsBindings | src/main/arpSpoofDetector.js:25-41 | bindings stay nonempty, so a critical alert means exactly that the IP was bound to another MAC |
| ArpSpoof.ReplayLastMac | src/main/arpSpoofDetector.js:27-28 | after a sequence of lines each IP is bound to the MAC of its last accepted reply |
| ArpSpoof.Replay | src/main/arpSpoofDetector.js:18-54 | replaying lines never forgets an IP, and a table whose bindings are all nonempty stays so |
| ArpSpoof.ArpSpoofDetector.constructor | src/main/arpSpoofDetector.js:4 | the table starts empty |
| ArpSpoof.ArpSpoofDetector.Start | src/main/arpSpoofDetector.js:6-7 | starting clears the table |
| ArpSpoof.ArpSpoofDetector.OnLineParsed | src/main/arpSpoofDetector.js:18-54 | the new table and the alert are those of the line step on the old table |
| CredentialSniffer.Mask | src/main/credentialSniffer.js:52 | a password of more than two characters keeps its first and last character with stars between; a shorter one becomes "***" |
| CredentialSniffer.ParseLine | src/main/credentialSniffer.js:31-44 | a line is read iff it has at least three fields and a source IP |
| CredentialSniffer.UserPass | src/main/credentialSniffer.js:46-63 | USER records or replaces the source's pending entry; PASS with a pending entry of the same protocol yields the credential and removes the entry; other commands change nothing |
| CredentialSniffer.HttpBasic | src/main/credentialSniffer.js:69-81 | the decoded text split on ':' yields a credential iff its first piece is nonempty and a second exists, the second being the password |
| CredentialSniffer.ImapLogin | src/main/credentialSniffer.js:83 | the leftmost `LOGIN\s+([^ ]+)\s+(.+)` match: a nonempty space-free user and a nonempty one-line password |
| CredentialSniffer.Imap | src/main/credentialSniffer.js:82-92 | an IMAP credential iff the pattern matches, with every '"' removed from the password |
| CredentialSniffer.OnLine | src/main/credentialSniffer.js:30-94 | the first present of FTP command, POP command, Basic header and IMAP LOGIN decides the line; a rejected line changes nothing |
| CredentialSniffer.UserThenPass | src/main/credentialSniffer.js:46-66 | USER then PASS from one source over FTP yields that credential and leaves nothing pending for the source |
| CredentialSniffer.CredentialSniffer.constructor | src/main/credentialSniffer.js:11 | nothing pending at first |
| CredentialSniffer.CredentialSniffer.Start | src/main/credentialSniffer.js:13-14 | starting forgets every pending USER |
| CredentialSniffer.CredentialSniffer.ParseUserPassSequence | src/main/credentialSniffer.js:46-63 | pending map and credential are the USER/PASS step on the old map |
| CredentialSniffer.CredentialSniffer.OnLineParsed | src/main/credentialSniffer.js:30-94 | pending map and credential are the line step on the old map |
| DnsHarvest.Dedup | src/main/dnsHarvester.js:27 | the distinct values, each once, exactly those of the input |
| DnsHarvest.DedupOrder | src/main/dnsHarvester.js:27 | the distinct values keep the order of their first occurrence |
| DnsHarvest.OnLine | src/main/dnsHarvester.js:16-43 | no record for an empty hostname; otherwise one record with the IPv4 then IPv6 answers deduplicated, the source IP and query type, and "mDNS" iff the name ends in ".local" |
| RogueDhcp.ParseOffer | src/main/rogueDhcpDetector.js:22-31 | an offer is read iff the line has two fields and a source IP; the server is the third field's first value, or the source IP when it is empty |
| RogueDhcp.OnLine | src/main/rogueDhcpDetector.js:21-48 | every accepted line alerts; the server is trusted iff the set was empty or holds it; only an empty set learns the server |
| RogueDhcp.ReplayKeepsTrust | src/main/rogueDhcpDetector.js:33-36 | once a server is trusted, no later line changes the trusted set |
| RogueDhcp.ReplayTrustsFirst | src/main/rogueDhcpDetector.js:33-36 | a session trusts exactly the server of its first accepted line |
| RogueDhcp.RogueDhcpDetector.constructor | src/main/rogueDhcpDetector.js:3 | the trusted set starts empty |
| RogueDhcp.RogueDhcpDetector.Start | src/main/rogueDhcpDetector.js:6-8 | starting clears the trusted set |
| RogueDhcp.RogueDhcpDetector.OnLineParsed | src/main/rogueDhcpDetector.js:21-48 | new set and alert are the line step on the old set |
| RogueDns.ParseResponse | src/main/rogueDnsDetector.js:24-41 | nothing for a blank line or fewer than five tab fields; otherwise a response iff there is a server IP and an A record |
| RogueDns.OnLine | src/main/rogueDnsDetector.js:23-70 | the first accepted response is trusted and reported as trusted; later ones alert only for an untrusted server |
| RogueDns.ReplayKeepsTrust | src/main/rogueDnsDetector.js:44-57 | once a server is trusted, no later line changes the trusted set |
| RogueDns.TrustedSessionAlerts | src/main/rogueDnsDetector.js:57-69 | once a server is trusted, the session reports exactly one untrusted alert per response from another server, in order, and none for the trusted server or for rejected lines |
| RogueDns.FirstResponseTrusted | src/main/rogueDnsDetector.js:44-55 | a session opens with a trusted report for the first accepted response, after which that server is the trusted one |
| RogueDns.ReplayTrustsFirst | src/main/rogueDnsDetector.js:44-46 | a session trusts exactly the server of its first accepted response |
| RogueDns.RogueDnsDetector.constructor | src/main/rogueDnsDetector.js:3 | the trusted set starts empty |
| RogueDns.RogueDnsDetector.Start | src/main/rogueDnsDetector.js:10-11 | starting clears the trusted set |
| RogueDns.RogueDnsDetector.OnLineParsed | src/main/rogueDnsDetector.js:23-70 | new set and alert are the line step on the old set |
| TsharkVlan.ParseInt | src/main/tsharkScanner.js:44 | `parseInt` of a nonempty digit string is its value |
| TsharkVlan.ParseIntOfNatToString | src/main/tsharkScanner.js:44 | decimal text reads back as its number |
| TsharkVlan.DiscoveriesEach | src/main/tsharkScanner.js:42-46 | with nonempty ids and a source MAC each id gives its discovery, in order |
| TsharkVlan.Discoveries | src/main/tsharkScanner.js:42-46 | at most one discovery per VLAN id, each with the line's nonempty source MAC and its destination MAC |
| TsharkVlan.DiscoveriesNeedSource | src/main/tsharkScanner.js:43 | without a source MAC nothing is discovered |
| TsharkVlan.OnLineDiscoveries | src/main/tsharkScanner.js:34-48 | nothing for a line of fewer than three fields; otherwise one discovery per nonempty VLAN id when there is a source MAC |
| TsharkVlan.OnLine | src/main/tsharkScanner.js:34-48 | a line of fewer than three fields discovers nothing; every discovery carries the line's nonempty second field as source MAC and its third as destination |
| TsharkVlan.TsharkCapture.constructor | src/main/tsharkScanner.js:5 | no capture at first |
| TsharkVlan.TsharkCapture.Start | src/main/tsharkScanner.js:7-32 | a start happens iff none was running; afterwards one is running |
| TsharkVlan.TsharkCapture.Stop | src/main/tsharkScanner.js:71-79 | returns true iff a capture was running; afterwards none is |
| TsharkVlan.TsharkCapture.OnExit | src/main/tsharkScanner.js:58-68 | on close or error no capture is running |
| PcapStats.ProtocolOf | src/main/pcapAnalyzer.js:49-75 | TCP (HTTP with an http layer) before UDP (DNS with a dns layer) before ICMP before ARP, else "Other" |
| PcapStats.AddressesOf | src/main/pcapAnalyzer.js:43-73 | the addresses are IPv4, else IPv6, else "Unknown"; an ARP packet uses its protocol addresses or "ARP" |
| PcapStats.Credit | src/main/pcapAnalyzer.js:82-87 | a talker is credited with the frame length, except "Unknown" |
| PcapStats.ProtocolTotalBump | src/main/pcapAnalyzer.js:78-80 | counting a packet of a known protocol adds one to the protocol total |
| PcapStats.OnlyHttpWarning | src/main/pcapAnalyzer.js:90-94 | only HTTP is ever classified among the cleartext protocols, so its warning is the only one raised |
| PcapStats.AddWarning | src/main/pcapAnalyzer.js:91-93 | the warning list gains the warning once and stays free of duplicates |
| PcapStats.Entries | src/main/pcapAnalyzer.js:110 | one (ip, bytes) entry per talker key |
| PcapStats.TopTalkersOfSorted | src/main/pcapAnalyzer.js:110-113 | the sorted entries cut to ten are distinct talkers with their bytes, in descending order, and no left-out talker sent more than a kept one |
| PcapStats.CountKeepsValid | src/main/pcapAnalyzer.js:78-94 | counting a packet keeps the totals consistent: the protocol counts sum to the packet total |
| PcapStats.Count | src/main/pcapAnalyzer.js:76-87 | one more packet and its length in bytes, one more for its protocol and no change for any other, and no talker or protocol is ever forgotten |
| PcapStats.PcapAnalyzer.constructor | src/main/pcapAnalyzer.js:8-14 | the statistics start empty |
| PcapStats.PcapAnalyzer.Reset | src/main/pcapAnalyzer.js:17-25 | `resetStats` empties the statistics |
| PcapStats.PcapAnalyzer.ProcessPacket | src/main/pcapAnalyzer.js:28-106 | a packet without layers or frame changes nothing; otherwise the statistics are the count step on the old ones |
| PcapStats.PcapAnalyzer.ComputeStatsUpdate | src/main/pcapAnalyzer.js:108-122 | the counters as they stand and the ten largest talkers |
| DeepScanner.ServerHeaderNeedsLabel | src/main/deepScanner.js:112 | a Server header is only found where the text holds `server:` in some letter case |
| DeepScanner.ServerHeaderAtStart | src/main/deepScanner.js:112 | `Server:` at the start followed by a non-blank character is found |
| DeepScanner.FirstLine | src/main/deepScanner.js:122-136 | the first line is the prefix up to the first carriage return (all of the banner when there is none), i.e. the first piece of `split('\r')` |
| DeepScanner.Snippet | src/main/deepScanner.js:141 | the first 40 characters, with line breaks turned into spaces |
| DeepScanner.CertificateWins | src/main/deepScanner.js:97-108 | a certificate gives "TLS/SSL Service" whatever the banner, with subject and issuer leading the details |
| DeepScanner.AnalyzeService | src/main/deepScanner.js:93-154 | the guess is "TLS/SSL Service" exactly when a certificate was read; otherwise one of the five banner classifications exactly when there is a banner, and one of the five silent-port guesses exactly when there is none |
| DeepScanner.ServerHeaderFirst | src/main/deepScanner.js:110-117 | a Server header gives "HTTP Web Server" before the SSH, SMTP and FTP tests |
| DeepScanner.PrefixClassified | src/main/deepScanner.js:119-131 | without a Server header, "SSH-" and "220 " prefixes give their servers, and the details are the banner's first line |
| DeepScanner.FtpGreetingReadsAsSmtp | src/main/deepScanner.js:126-138 | an FTP greeting starting "220 " is taken for a mail server, since the SMTP test comes first |
| DeepScanner.CustomServiceSnippet | src/main/deepScanner.js:140-144 | any other banner is a custom service whose details hold at most 40 of its characters on one line |
| DeepScanner.SilentPortGuess | src/main/deepScanner.js:147-153 | with no banner and no certificate only ports 22, 23, 3389 and 53 are guessed; the rest are reported as dropped |
| OsGuess.GuessOS | src/main/scanner.js:264-288 | Windows iff a Windows port is open; macOS by port 548 or Apple with 5900; then the vendor rules; "Linux / Unix" only with port 22 and "Unknown OS" only without it |
| OsGuess.GuessOSPortSet | src/main/scanner.js:265 | the guess depends only on the set of open ports |
| OsGuess.NormalizeMac | src/main/scanner.js:192 | dashes become colons and letters upper case |
| OsGuess.NormalizeMacIdempotent | src/main/scanner.js:192 | normalising twice is normalising once |
| OsGuess.ArpTableLastWins | src/main/scanner.js:182-197 | each IP is bound to the normalised MAC of its last non-broadcast line, and broadcast MACs never enter the table |
| OsGuess.ArpTable | src/main/scanner.js:182-197 | no IP is ever bound to the broadcast MAC |
| OsGuess.GetArpTable | src/main/scanner.js:179-198 | the `forEach` builds exactly that table |
| OsGuess.OuiKey | src/main/scanner.js:203-206 | no key iff the MAC is empty or "Unknown"; otherwise its first eight characters upper-cased |
| OsGuess.OuiKeyCaseAndSuffix | src/main/scanner.js:206 | the key ignores letter case and everything after the first eight characters |
| NmapImport.OpenDetailsIds | src/main/nmapXmlParser.js:63-90 | each open port gives one detail carrying its number; the numbers are exactly the open port ids, in block order |
| NmapImport.InsertAsc | src/main/nmapXmlParser.js:93 | insertion adds exactly the element |
| NmapImport.SortAsc | src/main/nmapXmlParser.js:93 | the numeric sort is a permutation |
| NmapImport.InsertAscSorted | src/main/nmapXmlParser.js:93 | insertion keeps ascending order |
| NmapImport.SortAscSorted | src/main/nmapXmlParser.js:93 | the result is in ascending numeric order |
| NmapImport.ImportHostSkips | src/main/nmapXmlParser.js:19-41 | a block gives a host iff it is not down and has an address; IPv4 is preferred over IPv6; the host is tagged with the importer's source |
| NmapImport.ImportHost | src/main/nmapXmlParser.js:17-98 | a block is skipped exactly when the host is down or has no address; an imported host carries its nonempty address and the importer's source |
| NmapImport.ImportHostPorts | src/main/nmapXmlParser.js:63-97 | the host's ports are exactly the open ones, sorted ascending; port details are present iff some port is open, and then they are exactly the open ports' details in document order |
| NmapImport.Detail | src/main/nmapXmlParser.js:79-85 | an open port's detail keeps its number and takes protocol, service, product and version from the port, defaulting to tcp, unknown, "" and "" |
| NmapImport.ImportHostOs | src/main/nmapXmlParser.js:57-60 | the OS is set iff there is an OS match, and is its first fifty characters |
| NmapImport.ImportAllAddressed | src/main/nmapXmlParser.js:41-97 | every imported host has an address and the importer's source |
| NmapImport.ImportAllEmpty | src/main/nmapXmlParser.js:10-100 | a report gives no host iff every block is skipped |
| NmapImport.ImportAll | src/main/nmapXmlParser.js:10-100 | at most one host per block, and none at all exactly when every block is down or has no address |
| NmapImport.ImportAllKeepsAll | src/main/nmapXmlParser.js:10-100 | when no block is skipped every block gives one host |
| NmapImport.CollectOpenPorts | src/main/nmapXmlParser.js:63-90 | the `<port>` loop collects the open ports' numbers and details in block order |
| NmapImport.ImportHostBlock | src/main/nmapXmlParser.js:17-98 | the per-host loop body builds exactly the imported host or skips the block |
| NmapImport.ParseNmapXml | src/main/nmapXmlParser.js:10-100 | `parseNmapXml` returns the imported hosts of the blocks, in order |
| ScanAll.RemoveFirstAbsent | src/renderer/scanAllOrchestrator.js:68 | removing a pattern that does not occur leaves the type alone |
| ScanAll.RemoveFirst | src/renderer/scanAllOrchestrator.js:68 | the pattern is removed once when it occurs: the result is exactly its length shorter, and otherwise as long as the type |
| ScanAll.RemoveFirstPrefix | src/renderer/scanAllOrchestrator.js:68 | a leading "nmap-" is what is removed |
| ScanAll.Launch | src/renderer/scanAllOrchestrator.js:64-68 | a deep scan for the native type, else an nmap scan, for that IP |
| ScanAll.CancelCall | src/renderer/scanAllOrchestrator.js:32-34 | the cancel call matches the kind of scan the type launches |
| ScanAll.Launches | src/renderer/scanAllOrchestrator.js:62-69 | one launch per IP, in order |
| ScanAll.Cancels | src/renderer/scanAllOrchestrator.js:31-35 | one cancel call per IP, in order |
| ScanAll.WithoutFacts | src/renderer/scanAllOrchestrator.js:44 | `Set.delete` keeps every other member in order and removes exactly one element when present |
| ScanAll.PumpFromSplit | src/renderer/scanAllOrchestrator.js:61-71 | a pump takes a prefix of the queue and leaves the rest |
| ScanAll.PumpFromBound | src/renderer/scanAllOrchestrator.js:62 | a pump never makes more than three active and stops short of three only when the queue is empty |
| ScanAll.PumpFromMembers | src/renderer/scanAllOrchestrator.js:63-65 | after a pump the active set is duplicate-free and holds the old members and the IPs taken |
| ScanAll.PumpFromDistinct | src/renderer/scanAllOrchestrator.js:61-71 | with distinct IPs a pump moves IPs from queue to active set without losing or repeating any |
| ScanAll.ScanAllOrchestrator.constructor | src/renderer/scanAllOrchestrator.js:2-11 | native type, idle, empty queue and active set, zero counters, no progress |
| ScanAll.ScanAllOrchestrator.SetType | src/renderer/scanAllOrchestrator.js:13-15 | only the type changes |
| ScanAll.ScanAllOrchestrator.Pump | src/renderer/scanAllOrchestrator.js:61-71 | idle: nothing; running: the pump step moves IPs to the active set and launches one scan each, in order, keeping at most three active |
| ScanAll.ScanAllOrchestrator.Start | src/renderer/scanAllOrchestrator.js:17-27 | no hosts: no change; otherwise counters reset, IPs queued and pumped; from idle with distinct IPs every IP is accounted for as active or queued |
| ScanAll.ScanAllOrchestrator.Cancel | src/renderer/scanAllOrchestrator.js:29-38 | one cancel call per active IP in insertion order, then idle with nothing active or queued |
| ScanAll.ScanAllOrchestrator.OnHostDone | src/renderer/scanAllOrchestrator.js:40-53 | ignored unless running with that IP active; else the IP is completed and its progress dropped, and the run ends or pumps; completed + active + queued stays the total |
| ScanAll.ScanAllOrchestrator.OnHostProgress | src/renderer/scanAllOrchestrator.js:55-59 | progress is recorded only while running; nothing else changes |
| RendererIndex.ReplaceFromAbsent | src/renderer/index.js:8-13 | a character whose replacement has already run is left alone by the later ones |
| RendererIndex.EscapeCharChain | src/renderer/index.js:8-13 | the chain of replacements on one character gives its entity |
| RendererIndex.EscapeHtmlEach | src/renderer/index.js:6-14 | the five chained replacements act on each character independently |
| RendererIndex.EscapeHtmlRoundTrip | src/renderer/index.js:6-14 | escaping loses nothing: unescaping gives back the text |
| RendererIndex.EscapeHtmlSafe | src/renderer/index.js:6-14 | the result holds no `<`, `>`, `"` or `'`, every `&` starts one of the five entities, and null gives "" |
| RendererIndex.EntityThenEscaped | src/renderer/index.js:6-14 | escaping one more character in front of a text whose every `&` starts an entity keeps that property |
| RendererIndex.SecurityBadgePrecedence | src/renderer/index.js:590-626 | critical findings, then warnings, then a clean audit or nmap vuln data outrank the ports; risky ports before exposed ones; else unscanned |
| RendererIndex.SecurityBadge | src/renderer/index.js:590-626 | the badge class is one of danger, warning, success, secondary, and danger, warning and success each come with their own icon and no other class does |
| RendererIndex.CvssSeverity | src/renderer/index.js:1197-1206 | critical iff ≥ 9.0, high iff in [7, 9), medium iff in [4, 7), low below 4 or unreadable |
| RendererIndex.CvssSeverityMonotone | src/renderer/index.js:1202-1206 | a higher score never gets a milder severity |
| RendererIndex.RecordKeepsConsistent | src/renderer/index.js:925-930 | recording a result keeps the counters equal to the vulnerable critical/warning entries of the history, and a port already recorded changes nothing |
| RendererIndex.ConsistentDanger | src/renderer/index.js:594-598 | a consistent audit shows a danger badge iff a critical vulnerability was recorded |
| RendererIndex.FindHost | src/renderer/index.js:918 | `findIndex`: the first host with the IP, or none when no host has it |
| RendererIndex.HostList.constructor | src/renderer/index.js:916 | the host list as given, with consistent audits |
| RendererIndex.HostList.OnDeepScanResult | src/renderer/index.js:916-930 | an unknown IP is dropped; otherwise the first host with that IP gets an audit (empty if none) recording the result once per port, and no other host changes |
| RendererIndex.Record | src/renderer/index.js:924-929 | recording a result only ever appends to the history, at most one entry, after which the port is recorded; the vulnerability and warning counters never fall |
| RendererIndex.RecordResult | src/renderer/index.js:925-929 | the `some` scan over the history followed by the conditional push and counter bumps computes exactly the recording of the result |
| RendererTopology.ExtractSubnetUnknown | src/renderer/topology.js:122-127 | the subnet is "Unknown" iff the address is missing or not four dot-separated parts; otherwise it ends in ".0/24" |
| RendererTopology.SplitDottedQuad | src/renderer/topology.js:124 | four dot-free parts joined by dots split back into those parts |
| RendererTopology.ExtractSubnetDotted | src/renderer/topology.js:125 | a dotted quad's subnet keeps its first three parts and appends ".0/24" |
| RendererTopology.DedupeFacts | src/renderer/topology.js:119-120 | a `Set` filled in order lists every value once and nothing else |
| RendererTopology.SubnetOfEach | src/renderer/topology.js:136 | the subnet of each host, in order |
| RendererTopology.SubnetsFacts | src/renderer/topology.js:135-137 | one entry per distinct subnet of the hosts, nothing else |
| RendererTopology.RouterIpsMembers | src/renderer/topology.js:129-133 | the collected IPs are exactly those of hosts whose device type mentions "router" |
| RendererTopology.GatewaysFacts | src/renderer/topology.js:129-133 | an IP is a gateway iff some host with that IP is a router; each is listed once |
| RendererTopology.HeuristicExtends | src/renderer/topology.js:148-166 | the heuristic only appends to a blank or generic type and leaves a specific one alone; an Apple vendor makes it a phone |
| RendererTopology.Heuristic | src/renderer/topology.js:143-166 | the type is only ever extended: a specific type is kept as is, and a blank or generic one gains at most one of the suffixes phone, printer, router, media, storage, game console, endpoint |
| RendererTopology.FirstSelected | src/renderer/topology.js:168-200 | the chosen type is an entry of the type order whose test passes |
| RendererTopology.NodeTypeFirstMatch | src/renderer/topology.js:168-200 | the node type is the first entry of router, switch, phone, printer, wap, game-console, media, storage, endpoint whose test the type text passes |
| RendererTopology.NodeType | src/renderer/topology.js:167-200 | the node type is one of the nine known kinds (router, switch, phone, printer, wap, game-console, media, storage, endpoint), and always "router" for a gateway |
| RendererTopology.PostureMatchesCard | src/renderer/topology.js:208-223 | for a host without a deep audit the map's danger/warning posture is the host card's badge class |
| RendererTopology.Badge | src/renderer/topology.js:205-223 | the intended label prefix is empty iff the host is clean |
| RendererTopology.BadgeMatchesCard | src/renderer/topology.js:208-223 | for a host without a deep audit a badged label carries the host card's icon |
| RendererTopology.Utf8 | src/renderer/topology.js:209 | a character encodes to one to four bytes |
| RendererTopology.BadgeMisdecoded | src/renderer/topology.js:209-220 | the badge strings as written differ from the intended ones and are exactly their UTF-8 bytes read as Windows-1252 |
| RendererTopology.BadgeAsWritten | src/renderer/topology.js:209-220 | the label prefix as written is empty exactly when the host is clean |
| RendererTopology.HostNode | src/renderer/topology.js:135-239 | a host's node has id = IP, parent = its subnet, label = the badge as written (the mis-decoded literal) + base label, type = NodeType(gateway membership, derived type), and border colour red for danger, amber for warning, otherwise the type's colour |
| RendererTopology.IntendedHostNode | src/renderer/topology.js:205-223 | the node the map means to draw: the same node with the host card's stop or warning sign + base label |
| RendererTopology.HostNodeOnlyLabelDiffers | src/renderer/topology.js:205-239 | the drawn and intended nodes agree on id, parent, type and colour, and are equal exactly when the host is clean |
| RendererTopology.RouterHostIsRouter | src/renderer/topology.js:168-170 | a router host is drawn as a router, in the router colour unless flagged |
| RendererTopology.HostNodesAt | src/renderer/topology.js:135-240 | one node per host, in host order: the k-th node is the k-th host's |
| RendererTopology.SubnetNodesAt | src/renderer/topology.js:242-251 | one parent node per subnet, in order: the k-th node is the k-th subnet's |
| RendererTopology.SubnetIpsMembers | src/renderer/topology.js:254 | a subnet's members are exactly the hosts' IPs that fall in it |
| RendererTopology.SubnetIpsDistinct | src/renderer/topology.js:254 | with distinct host IPs each member is listed once |
| RendererTopology.FirstGateway | src/renderer/topology.js:255 | the center is a member that is a gateway, and there is none only when no member is one |
| RendererTopology.ReplaceFirstSkips | src/renderer/topology.js:256 | `replace` changes only the first occurrence |
| RendererTopology.DefaultGatewayOf | src/renderer/topology.js:256 | the default gateway of "a.b.c.0/24" is "a.b.c.1" |
| RendererTopology.StarFacts | src/renderer/topology.js:259-284 | a star has one edge from every other member to the center |
| RendererTopology.Path | src/renderer/topology.js:286-309 | a path has one edge between each member and the next |
| RendererTopology.SubnetEdgeCount | src/renderer/topology.js:253-297 | with distinct IPs a subnet of k hosts gets k−1 edges, whichever shape it takes |
| RendererTopology.GatewayIsHub | src/renderer/topology.js:259-271 | with a gateway in the subnet every edge of the subnet points at its first gateway from another member |
| RendererTopology.ElementsHostNode | src/renderer/topology.js:129-240 | the element list opens with one node per host, in host order |
| RendererTopology.ElementsSubnetNode | src/renderer/topology.js:242-251 | after the host nodes comes one node per subnet in first-seen order |
| RendererTopology.GatewayChain | src/renderer/topology.js:299-309 | g gateways are chained by g−1 edges, each from one gateway to the next seen |
| RendererTopology.CollectGateways | src/renderer/topology.js:129-133 | the first loop collects exactly the gateway set |
| RendererTopology.AddHostNodes | src/renderer/topology.js:135-240 | the second loop builds the host nodes and the subnet set |
| RendererTopology.AddSubnetNodes | src/renderer/topology.js:242-251 | the third loop builds the subnet nodes |
| RendererTopology.FilterSubnet | src/renderer/topology.js:254 | the filter yields the subnet's members |
| RendererTopology.FindGateway | src/renderer/topology.js:255 | the search yields the first gateway member |
| RendererTopology.FindMember | src/renderer/topology.js:257 | the search succeeds iff some member has the IP |
| RendererTopology.StarEdges | src/renderer/topology.js:260-271 | the star loop builds the star |
| RendererTopology.PathEdges | src/renderer/topology.js:286-295 | the path loop builds the path |
| RendererTopology.SubnetEdgesOf | src/renderer/topology.js:254-296 | one subnet's edges: star around the first gateway, else around the ".1" host, else a path |
| RendererTopology.AddSubnetEdges | src/renderer/topology.js:253-297 | the fourth loop builds every subnet's edges in subnet order |
| RendererTopology.UpdateTopologyData | src/renderer/topology.js:113-309 | the element list is host nodes (labels carrying the badges as written), subnet nodes, subnet edges, then the gateway chain |

## Left out

- Process and network I/O is not modelled. This covers spawning tshark, `arp -a` and nmap, ping sweeps, port probes, banner and certificate grabbing, the rate-limited vendor API queue and its cache, and child-process stderr. Monitors receive their lines already read; the scanner receives its ARP captures already matched.
- Timestamps, `Date.now` and the live-capture interval timer are not modelled. These are clock values with no logic around them.
- The JSON-RPC transport of the Rust engine and the flag and stdin handling of the Go reports engine are not modelled. They only move records, and the model uses those records as datatypes.
- The profile store is a map from name to profile, not a directory of `<name>.json` files. File-system failures, which the engine reports as `ERR_INTERNAL`, are therefore not modelled.
- Regular expressions applied to raw nmap XML are not modelled. Each `<host>` and `<port>` block arrives with the attribute values those expressions captured. The same holds for the two ARP-line expressions of the scanner.
- CredentialSniffer.ParseLine: a field missing from a short line is read as "" (FieldAt). The source reads it as `undefined`, so a PASS whose argument field is absent throws a TypeError at `arg.length` in src/main/credentialSniffer.js:51, where the model masks it as "***". tshark's `-T fields` output always carries every requested field, so such a line does not reach the sniffer.
- SHA-256 (hostname sanitisation), base64 decoding (HTTP Basic credentials) and certificate-date formatting (the deep scanner) are function parameters. Their algorithms are not modelled.
- JavaScript strings are modelled as sequences of code points, not UTF-16 code units. Lengths and slices such as the 50-character OS name and the 40-character banner excerpt therefore agree with the source only for text in the Basic Multilingual Plane.
- Case folding (`toLowerCase`, `toUpperCase`, `(?i)`) is modelled for ASCII letters only.
- The in-place sorts (`sort_by`, `sort.Slice`, `Array.prototype.sort`) are modelled as functions on sequences. Each result is proved sorted and a permutation of its input; the order among equal keys is left open. The stable tie order of the JavaScript `Array.prototype.sort` and the Rust `sort_by` is not modelled; Go's `sort.Slice` is not stable.
- Hash-map and hash-set iteration order in the Rust and Go engines is left open. Lists built by iterating them are specified by their elements, not by their order.
- RendererIndex.CvssSeverity: the score is a real number, with `None` standing for the NaN that `parseFloat` gives on unreadable text. Parsing the score text into a number is not modelled.
- The graph-library calls that lay out and style the network map, node icons (inline SVG and `encodeURIComponent`), and every DOM update (including `updateSecurityBadgeDOM` and `updateUI`) are not modelled.
- The chunked scheduling inside `runDeepScan` is not modelled. Neither are the scanning API calls that the orchestrator issues: they are returned as a list of calls.
- Floating-point progress percentages are not modelled. The orchestrator records the progress value it is given.

## Findings

| source | as written | input that shows it | evidently intended | confidence | as-written member | corrected member |
|---|---|---|---|---|---|---|
| src/renderer/topology.js:209-220 | The label badges are the UTF-8 bytes of U+1F6D1 (stop sign) and of U+26A0 U+FE0F (warning sign) read back as Windows-1252 text, so the map shows "ðŸ›‘" and "âš ï¸" (the undefined byte 0x8F is lost). | any host with a critical deep-audit finding, or with port 21 open | the same stop-sign and warning-sign icons as the host card in the main view (src/renderer/index.js:590-626) | not executed | RendererTopology.BadgeAsWritten, used by RendererTopology.HostNode and so by the element list (shown by lemma RendererTopology.BadgeMisdecoded) | RendererTopology.Badge, used by RendererTopology.IntendedHostNode (lemmas RendererTopology.BadgeMatchesCard and RendererTopology.HostNodeOnlyLabelDiffers) |
