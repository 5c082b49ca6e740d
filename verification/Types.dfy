/** The vocabulary of the runtime: machine integers, enumerations, and the records that
    the coordinator keeps in memory and writes to its durable blob. */
module Types {

  // ----- machine integers ------------------------------------------------------------

  const U32_LIMIT: int := 0x1_0000_0000
  const I64_LIMIT: int := 0x8000_0000_0000_0000
  const U64_LIMIT: int := 0x1_0000_0000_0000_0000

  type u8 = x: int | 0 <= x < 0x100
  type u32 = x: int | 0 <= x < 0x1_0000_0000
  type u64 = x: int | 0 <= x < 0x1_0000_0000_0000_0000
  type i64 = x: int | -0x8000_0000_0000_0000 <= x < 0x8000_0000_0000_0000

  /** A byte string; `std::string` is one as well. */
  type Bytes = seq<u8>

  /** The 8-byte image of a double. */
  type DoubleBits = u64

  datatype Option<+T> = None | Some(value: T)

  datatype Result<+T, +E> = Success(value: T) | Failure(error: E)

  // ----- doubles, by their image -----------------------------------------------------

  predicate IsFinite(d: DoubleBits) {
    d / 0x10_0000_0000_0000 % 0x800 != 0x7FF
  }

  predicate IsNaN(d: DoubleBits) {
    !IsFinite(d) && d % 0x10_0000_0000_0000 != 0
  }

  /** Sign-magnitude order key: both zeros share a key, infinities are extreme. */
  function OrderKey(d: DoubleBits): int {
    if d < I64_LIMIT then d else I64_LIMIT - d
  }

  /** The `<` of the source on doubles: false as soon as one side is a NaN. */
  predicate DoubleLess(a: DoubleBits, b: DoubleBits) {
    !IsNaN(a) && !IsNaN(b) && OrderKey(a) < OrderKey(b)
  }

  // ----- enumerations ----------------------------------------------------------------

  datatype EvidenceStatus = Suspected | Confirmed | Cleared | StaleEvidence | UnknownStatus

  datatype AssignmentState =
    | CandidateOnly | Prepared | Authorized | Active | Draining | Fenced | Retired | NeedsRevalidation

  datatype RouteState =
    | EmptyRoute | PendingInstall | Installed | Acknowledged | RouteNeedsRevalidation | StaleRoute

  datatype Milestone =
    | IntentOnly | OldAdmissionFenced | ReplacementAuthorized
    | ActivationAcknowledged | RouteInstalled | VerificationComplete

  datatype ContinuityClass =
    | StatelessRestart | ReplaySafeRequests | CheckpointRestore | SessionStateRebind
    | SessionRestartRequired | ManualRecoveryRequired | UnknownContinuity

  datatype FailbackPolicy = Manual | StayOnCurrent | ReturnAfterValidation

  datatype AttemptState =
    | Requested | Evaluating | Blocked | Preparing | Fencing | Promoting | CuttingOver
    | Verifying | Completed | FailedAttempt | Cancelled | Superseded | RecoveryRequired

  // Enumerations that no decision reads are kept as their byte, within the declared range.
  type FailureCategory = x: int | 0 <= x <= 12
  type Provenance = x: int | 0 <= x <= 6
  type Severity = x: int | 0 <= x <= 3
  type DomainClass = x: int | 0 <= x <= 9
  type ServingRole = x: int | 0 <= x <= 2
  type RtoAnchor = x: int | 0 <= x <= 2

  const DERIVED: Provenance := 2

  function MilestoneRank(m: Milestone): (r: u8)
    ensures r <= 5
  {
    match m
    case IntentOnly => 0
    case OldAdmissionFenced => 1
    case ReplacementAuthorized => 2
    case ActivationAcknowledged => 3
    case RouteInstalled => 4
    case VerificationComplete => 5
  }

  // ----- records ---------------------------------------------------------------------

  datatype SlotKey = SlotKey(service: u64, slot: u64)

  datatype Epoch = Epoch(value: u64, id: u64, boot: u64)

  datatype Timestamp = Timestamp(wallNs: i64, seqNo: u64)

  datatype Compatibility = Compatibility(
    modelKey: Bytes, runtimeAbi: Bytes, readinessProfile: Option<u64>,
    dependencies: seq<u64>, requiredCapabilities: seq<u64>)

  datatype DomainRequirement = DomainRequirement(
    requireIndependence: bool, minDistinctHosts: u32, minDistinctDevices: u32,
    forbiddenOverlapClasses: seq<DomainClass>)

  datatype ResourceRequirement = ResourceRequirement(
    resourceClass: Bytes, amount: DoubleBits, exactlyOneTarget: bool)

  datatype RecoveryObjective = RecoveryObjective(
    rtoMs: u64, rtoAnchor: RtoAnchor, continuity: ContinuityClass, maxStateLossSequences: u64,
    minCheckpointGen: Option<u64>, requiresVerifiedRecovery: bool)

  datatype AntiFlapping = AntiFlapping(
    maxAutoAttempts: u32, cooldownMs: u32, hysteresisMs: u32, manualInterventionRequired: bool)

  datatype ServiceDefinition = ServiceDefinition(
    service: u64, generation: u64, configGeneration: u64, name: Bytes, role: ServingRole,
    slotsFirst: u32, slotsCount: u32, compatibility: Compatibility,
    domainRequirement: DomainRequirement, resources: seq<ResourceRequirement>,
    recovery: RecoveryObjective, failback: FailbackPolicy, antiFlapping: AntiFlapping,
    requiredState: seq<u64>, provenance: Provenance, policyGeneration: u64)

  datatype Assignment = Assignment(
    id: u64, generation: u64, slot: SlotKey, target: u64, targetGeneration: u64,
    replica: u64, replicaGeneration: u64, engine: u64, engineIncarnation: u64,
    readinessProfile: u64, authorityGeneration: u64, activation: u64, activationGeneration: u64,
    route: u64, routeGeneration: u64, workerBoot: u64,
    resourceClaims: seq<u64>, continuityState: seq<u64>,
    state: AssignmentState, provisory: bool, provenance: Provenance)

  datatype DomainDecl = DomainDecl(
    id: u64, generation: u64, cls: DomainClass, name: Bytes, parent: Option<u64>,
    provenance: Provenance)

  datatype Membership = Membership(target: u64, domain: u64, known: bool)

  datatype FailureEvent = FailureEvent(
    eventId: u64, generation: u64, source: u64, sourceBoot: u64, category: FailureCategory,
    status: EvidenceStatus, provenance: Provenance, severity: Severity, confidence: DoubleBits,
    target: Option<u64>, targetGeneration: Option<u64>, domain: Option<u64>,
    observed: Timestamp, received: Timestamp, mechanism: Bytes, detail: Bytes,
    affectedDomains: seq<u64>, revalidatesExisting: bool)

  datatype RouteEntry = RouteEntry(
    route: u64, generation: u64, slot: SlotKey, target: u64, targetGeneration: u64,
    incarnation: u64, permittedBoot: u64, assignment: u64, assignmentGeneration: u64,
    epoch: Epoch, gatewayBoot: u64, state: RouteState, transport: Bytes, provenance: Provenance)

  /** A bounded per-request grant to a worker. */
  datatype Authorization = Authorization(
    epoch: Epoch, slot: SlotKey, assignment: u64, assignmentGeneration: u64, routeGeneration: u64,
    incarnation: u64, request: u64, execution: u64, operation: Bytes, workerBoot: u64)

  /** The record of an in-progress cutover. */
  datatype Txn = Txn(has: bool, milestone: Milestone, pending: Option<Assignment>,
                     source: Option<Assignment>, route: Option<RouteEntry>)

  /** What a snapshot holds when no transaction was recorded. */
  const NO_TXN := Txn(false, VerificationComplete, None, None, None)

  /** The durable record: everything `save` writes and `load` reads back. */
  datatype Snapshot = Snapshot(
    formatVersion: u32, epoch: Epoch, policyGeneration: u64, lastAuthorityGen: u64,
    services: seq<ServiceDefinition>, assignments: seq<Assignment>,
    domains: seq<DomainDecl>, memberships: seq<Membership>,
    evidence: seq<FailureEvent>, routes: seq<RouteEntry>, fencedBoots: seq<u64>,
    hasTxn: bool, txnMilestone: Milestone,
    pendingAssignment: Option<Assignment>, sourceAssignment: Option<Assignment>,
    pendingRoute: Option<RouteEntry>)
}
