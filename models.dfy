/**
 * Records exchanged by the Rust engine: hosts, deep-scan ports, fingerprints,
 * snapshot diffs, topology graphs and scan profiles, plus the JSON-RPC error
 * codes the engine answers with.
 */
module Models {
  import opened Common

  const ERR_PARSE: int := -32700
  const ERR_INVALID_REQUEST: int := -32600
  const ERR_METHOD_NOT_FOUND: int := -32601
  const ERR_INVALID_PARAMS: int := -32602
  const ERR_INTERNAL: int := -32603
  const ERR_PROFILE_NOT_FOUND: int := -1
  const ERR_BASELINE_NOT_FOUND: int := -2
  const ERR_FINGERPRINT_FAILED: int := -3
  const ERR_TOPOLOGY_FAILED: int := -4

  /** An engine error: a JSON-RPC code and a message. */
  datatype EngineError = EngineError(code: int, message: string)

  datatype Profile = Profile(
    name: string,
    portRange: string,
    timeout: U32,
    chunkSize: U32,
    bannerGrab: bool,
    tlsInspect: bool,
    securityAudit: bool,
    safeMode: bool,
    description: string)

  datatype Host = Host(
    ip: string,
    mac: string,
    hostname: string,
    vendor: string,
    os: string,
    ports: seq<U16>)

  datatype DeepScanPort = DeepScanPort(
    port: U16,
    serviceName: string,
    details: string,
    vulnerable: bool,
    severity: string,
    rawBanner: Option<string>)

  datatype BaselineMeta = BaselineMeta(id: string, labelText: string, timestamp: string, hostCount: nat)

  datatype Baseline = Baseline(meta: BaselineMeta, hosts: seq<Host>)

  datatype PortChange = PortChange(ip: string, addedPorts: seq<U16>, removedPorts: seq<U16>)

  datatype BannerChange = BannerChange(ip: string, port: U16, oldBanner: string, newBanner: string)

  datatype TlsChange = TlsChange(ip: string, port: U16, field: string, oldValue: string, newValue: string)

  datatype DiffSummary = DiffSummary(
    totalNew: nat,
    totalMissing: nat,
    totalPortChanges: nat,
    totalBannerChanges: nat,
    totalTlsChanges: nat)

  datatype DiffResult = DiffResult(
    newHosts: seq<Host>,
    missingHosts: seq<Host>,
    portChanges: seq<PortChange>,
    bannerChanges: seq<BannerChange>,
    tlsChanges: seq<TlsChange>,
    summaryStats: DiffSummary)

  datatype TlsCertInfo = TlsCertInfo(
    subject: string,
    issuer: string,
    validFrom: string,
    validTo: string,
    daysUntilExpiry: int,
    keySize: Option<string>,
    signature: Option<string>)

  /** A service fingerprint; `confidence` is in hundredths (0.9 is 90). */
  datatype Fingerprint = Fingerprint(
    port: U16,
    protocol: string,
    product: string,
    version: string,
    confidence: int,
    evidence: seq<string>,
    tlsCert: Option<TlsCertInfo>,
    cpe: Option<string>)

  datatype TopoNode = TopoNode(id: string, labelText: string, nodeType: string, ports: seq<U16>, os: string)

  datatype TopoEdge = TopoEdge(source: string, target: string, evidence: string)

  datatype TopologyResult = TopologyResult(nodes: seq<TopoNode>, edges: seq<TopoEdge>)
}
