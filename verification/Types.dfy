/** The records and enumerations of the public headers. */
module Types {
  import opened Bytes

  datatype Option<+T> = None | Some(value: T)

  datatype ErrorCode =
    | NotFound | InvalidArgument | InvalidTopology | StaleGeneration
    | IntegrityFailure | ProtocolError | ResourceLimit

  datatype Result<+T> = Ok(value: T) | Err(code: ErrorCode)

  /** Result<void>. */
  datatype Status = Done | Failed(code: ErrorCode)

  type Magnitude = r: real | r >= 0.0 witness 0.0

  // Each scoped enumeration has a fixed one-byte representation, and a value read from the wire need
  // not be one of the named ones: the last constructor holds the others.

  datatype EvidenceClass = Real | Synthetic | Unsupported | Unnamed(code: nat)

  datatype Technology = Unknown | NoInterconnect | NvLink | Pcie | Cxl | Other | Unnamed(code: nat)

  datatype NodeKind = Accelerator | Switch | Host | Unknown | Unnamed(code: nat)

  datatype MeasurementSupport = Unknown | Unsupported | SyntheticOnly | Real | Unnamed(code: nat)

  datatype DeviceHealth =
    | Unknown | Present | Absent | Degraded | RevalidationRequired | Incompatible | Unreachable
    | Unnamed(code: nat)

  datatype LinkState =
    | Unknown | Present | Absent | Supported | Unsupported | Up | Down | Degraded
    | RevalidationRequired | Stale | Incompatible | Unreachable
    | Unnamed(code: nat)

  datatype Timestamp = Timestamp(ns: int, valid: bool)

  datatype Evidence = Evidence(evidenceClass: EvidenceClass, provenance: nat, source: Text, note: Text)

  datatype Capability = Capability(
    interconnect: Technology,
    linkCount: nat,
    laneWidth: nat,
    nominalBandwidth: nat,
    peerAccess: bool,
    measurementSupport: MeasurementSupport,
    counters: nat,
    telemetry: bool)

  datatype DeviceRecord = DeviceRecord(
    id: nat,
    logicalName: Text,
    kind: NodeKind,
    backend: Text,
    backendInstance: Text,
    pciIdentity: Text,
    cudaOrdinal: Option<nat>,
    vendor: Text,
    architecture: Text,
    deviceGeneration: Text,
    capability: Capability,
    health: DeviceHealth,
    evidence: Evidence,
    generation: nat,
    ownerWorker: Option<nat>,
    ownerBoot: Option<nat>)

  datatype LinkRecord = LinkRecord(
    id: nat,
    source: nat,
    target: nat,
    directed: bool,
    physicalIdentifier: Text,
    state: LinkState,
    technology: Technology,
    capability: Capability,
    generation: nat,
    evidence: Evidence,
    lastObservation: Timestamp,
    measurementSupported: bool,
    degraded: bool,
    degradationNote: Text,
    topologyGeneration: nat)

  datatype MeasurementRecord = MeasurementRecord(
    id: nat,
    source: nat,
    target: nat,
    bandwidth: Magnitude,
    latency: Magnitude,
    contended: bool,
    evidence: Evidence,
    measuredAt: Timestamp,
    valid: bool,
    stale: bool,
    revalidationRequired: bool,
    ownerWorker: Option<nat>,
    ownerBoot: Option<nat>)

  datatype DurableState = DurableState(
    formatVersion: Text,
    topologyGeneration: nat,
    devices: seq<DeviceRecord>,
    links: seq<LinkRecord>,
    savedAt: Timestamp)

  datatype Limits = Limits(
    maxDevices: nat,
    maxLinks: nat,
    maxParallelLinks: nat,
    maxPathDepth: nat,
    maxCandidatePaths: nat,
    maxMeasurementHistory: nat)

  const DEFAULT_LIMITS := Limits(256, 1024, 16, 16, 256, 1024)

  function Ascii(s: string): (t: Text)
    ensures |t| == |s|
  {
    seq(|s|, i requires 0 <= i < |s| => (s[i] as int % 256) as byte)
  }

  const DURABLE_FORMAT: Text := Ascii("nvlinkfabric-durable/1.0")

  /** A consistent snapshot: devices and links in increasing order of id. */
  datatype Topology = Topology(generation: nat, devices: seq<DeviceRecord>, links: seq<LinkRecord>)
}
