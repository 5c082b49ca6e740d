/** Encoders and decoders of the durable records, each pair proved inverse in both directions:
    what was written reads back, and what is accepted is what would have been written. */
module Records {
  import opened Types
  import opened Wire

  // ----- enumeration bytes -----------------------------------------------------------

  function StatusCode(e: EvidenceStatus): (c: u8)
    ensures c < 5 && StatusAt(c) == e
  {
    match e case Suspected => 0 case Confirmed => 1 case Cleared => 2 case StaleEvidence => 3 case UnknownStatus => 4
  }

  function StatusAt(c: u8): EvidenceStatus
    requires c < 5
  {
    [Suspected, Confirmed, Cleared, StaleEvidence, UnknownStatus][c]
  }

  function AssignmentStateCode(e: AssignmentState): (c: u8)
    ensures c < 8 && AssignmentStateAt(c) == e
  {
    match e
    case CandidateOnly => 0 case Prepared => 1 case Authorized => 2 case Active => 3
    case Draining => 4 case Fenced => 5 case Retired => 6 case NeedsRevalidation => 7
  }

  function AssignmentStateAt(c: u8): AssignmentState
    requires c < 8
  {
    [CandidateOnly, Prepared, Authorized, Active, Draining, Fenced, Retired, NeedsRevalidation][c]
  }

  function RouteStateCode(e: RouteState): (c: u8)
    ensures c < 6 && RouteStateAt(c) == e
  {
    match e
    case EmptyRoute => 0 case PendingInstall => 1 case Installed => 2
    case Acknowledged => 3 case RouteNeedsRevalidation => 4 case StaleRoute => 5
  }

  function RouteStateAt(c: u8): RouteState
    requires c < 6
  {
    [EmptyRoute, PendingInstall, Installed, Acknowledged, RouteNeedsRevalidation, StaleRoute][c]
  }

  function ContinuityCode(e: ContinuityClass): (c: u8)
    ensures c < 7 && ContinuityAt(c) == e
  {
    match e
    case StatelessRestart => 0 case ReplaySafeRequests => 1 case CheckpointRestore => 2 case SessionStateRebind => 3
    case SessionRestartRequired => 4 case ManualRecoveryRequired => 5 case UnknownContinuity => 6
  }

  function ContinuityAt(c: u8): ContinuityClass
    requires c < 7
  {
    [StatelessRestart, ReplaySafeRequests, CheckpointRestore, SessionStateRebind,
     SessionRestartRequired, ManualRecoveryRequired, UnknownContinuity][c]
  }

  function FailbackCode(e: FailbackPolicy): (c: u8)
    ensures c < 3 && FailbackAt(c) == e
  {
    match e case Manual => 0 case StayOnCurrent => 1 case ReturnAfterValidation => 2
  }

  function FailbackAt(c: u8): FailbackPolicy
    requires c < 3
  {
    [Manual, StayOnCurrent, ReturnAfterValidation][c]
  }

  function MilestoneAt(c: u8): (m: Milestone)
    requires c < 6
    ensures MilestoneRank(m) == c
  {
    [IntentOnly, OldAdmissionFenced, ReplacementAuthorized, ActivationAcknowledged, RouteInstalled,
     VerificationComplete][c]
  }

  // ----- identity lists and optional identities --------------------------------------

  predicate AnyWord(v: u64) { true }

  function PutIds(xs: seq<u64>, tail: Bytes): Bytes { PutList(PutU64, xs, tail) }
  function GetIds(s: Bytes): Parsed<seq<u64>> { GetList(GetU64, s) }
  function PutOptId(o: Option<u64>, tail: Bytes): Bytes { PutOpt(PutU64, o, tail) }
  function GetOptId(s: Bytes): Parsed<Option<u64>> { GetOpt(GetU64, s) }

  lemma IdsWritten(xs: seq<u64>, o: Option<u64>, tail: Bytes)
    ensures |xs| <= MAX_COUNT ==> GetIds(PutIds(xs, tail)) == Ok(xs, tail)
    ensures GetOptId(PutOptId(o, tail)) == Ok(o, tail)
  {
    assert ReadsBack(PutU64, GetU64, AnyWord);
    if |xs| <= MAX_COUNT {
      ListWritten(PutU64, GetU64, AnyWord, xs, tail);
    }
    OptWritten(PutU64, GetU64, AnyWord, o, tail);
  }

  lemma IdsCanonical(s: Bytes)
    ensures GetIds(s).Ok? ==> |GetIds(s).value| <= MAX_COUNT && PutIds(GetIds(s).value, GetIds(s).rest) == s
    ensures GetOptId(s).Ok? ==> PutOptId(GetOptId(s).value, GetOptId(s).rest) == s
  {
    forall t ensures GetU64(t).Ok? ==> PutU64(GetU64(t).value, GetU64(t).rest) == t {
      IntegersCanonical(t);
    }
    assert Canonical(PutU64, GetU64, AnyWord);
    ListCanonical(PutU64, GetU64, AnyWord, s);
    OptCanonical(PutU64, GetU64, AnyWord, s);
  }

  // ----- assignments -----------------------------------------------------------------

  predicate FitsAssignment(a: Assignment) {
    |a.resourceClaims| <= MAX_COUNT && |a.continuityState| <= MAX_COUNT
  }

  const ASSIGNMENT_WORDS: nat := 17

  function AssignmentWords(a: Assignment): (v: seq<u64>)
    ensures |v| == ASSIGNMENT_WORDS
  {
    [a.id, a.generation, a.slot.service, a.slot.slot, a.target, a.targetGeneration,
     a.replica, a.replicaGeneration, a.engine, a.engineIncarnation,
     a.readinessProfile, a.authorityGeneration, a.activation, a.activationGeneration,
     a.route, a.routeGeneration, a.workerBoot]
  }

  function AssignmentOf(v: seq<u64>, claims: seq<u64>, continuity: seq<u64>,
                        state: AssignmentState, provisory: bool, provenance: Provenance): (a: Assignment)
    requires |v| == ASSIGNMENT_WORDS
    ensures AssignmentWords(a) == v
  {
    Assignment(v[0], v[1], SlotKey(v[2], v[3]), v[4], v[5], v[6], v[7], v[8], v[9], v[10], v[11], v[12],
               v[13], v[14], v[15], v[16], claims, continuity, state, provisory, provenance)
  }

  function PutAssignment(a: Assignment, tail: Bytes): Bytes {
    PutWords(AssignmentWords(a),
      PutIds(a.resourceClaims,
      PutIds(a.continuityState,
      PutU8(AssignmentStateCode(a.state),
      PutBool(a.provisory,
      PutU8(a.provenance, tail))))))
  }

  function GetAssignment(s: Bytes): Parsed<Assignment> {
    var (v, s) :- GetWords(ASSIGNMENT_WORDS, s);
    var (claims, s) :- GetIds(s);
    var (continuity, s) :- GetIds(s);
    var (state, s) :- GetBelow(8, s);
    var (provisory, s) :- GetBool(s);
    var (provenance, s) :- GetBelow(7, s);
    Ok(AssignmentOf(v, claims, continuity, AssignmentStateAt(state), provisory, provenance), s)
  }

  lemma AssignmentWritten(a: Assignment, tail: Bytes)
    requires FitsAssignment(a)
    ensures GetAssignment(PutAssignment(a, tail)) == Ok(a, tail)
  {
    var t2 := PutU8(AssignmentStateCode(a.state), PutBool(a.provisory, PutU8(a.provenance, tail)));
    var t1 := PutIds(a.continuityState, t2);
    IdsWritten(a.continuityState, None, t2);
    IdsWritten(a.resourceClaims, None, t1);
    WordsWritten(AssignmentWords(a), PutIds(a.resourceClaims, t1));
  }

  lemma AssignmentCanonical(s: Bytes)
    ensures GetAssignment(s).Ok? ==>
            FitsAssignment(GetAssignment(s).value) && PutAssignment(GetAssignment(s).value, GetAssignment(s).rest) == s
  {
    hide PutU8, GetU8, PutU32, GetU32, PutU64, GetU64, PutWords, GetWords, PutList, GetList, PutBool, GetBool;
    if GetAssignment(s).Ok? {
      WordsCanonical(ASSIGNMENT_WORDS, s);
      var s1 := GetWords(ASSIGNMENT_WORDS, s).rest;
      IdsCanonical(s1);
      var s2 := GetIds(s1).rest;
      IdsCanonical(s2);
      var s3 := GetIds(s2).rest;
      var s4 := GetBelow(8, s3).rest;
      ScalarsCanonical(s4);
    }
  }

  // ----- service definitions ---------------------------------------------------------

  predicate FitsCompatibility(c: Compatibility) {
    |c.modelKey| <= MAX_STRING && |c.runtimeAbi| <= MAX_STRING &&
    |c.dependencies| <= MAX_COUNT && |c.requiredCapabilities| <= MAX_COUNT
  }

  function PutCompatibility(c: Compatibility, tail: Bytes): Bytes {
    PutString(c.modelKey,
    PutString(c.runtimeAbi,
    PutOptId(c.readinessProfile,
    PutIds(c.dependencies,
    PutIds(c.requiredCapabilities, tail)))))
  }

  function GetCompatibility(s: Bytes): Parsed<Compatibility> {
    var (model, s) :- GetString(s);
    var (abi, s) :- GetString(s);
    var (profile, s) :- GetOptId(s);
    var (dependencies, s) :- GetIds(s);
    var (capabilities, s) :- GetIds(s);
    Ok(Compatibility(model, abi, profile, dependencies, capabilities), s)
  }

  lemma CompatibilityWritten(c: Compatibility, tail: Bytes)
    requires FitsCompatibility(c)
    ensures GetCompatibility(PutCompatibility(c, tail)) == Ok(c, tail)
  {
    hide PutString, GetString, PutIds, GetIds, PutOptId, GetOptId;
    var s4 := PutIds(c.requiredCapabilities, tail);
    var s3 := PutIds(c.dependencies, s4);
    var s2 := PutOptId(c.readinessProfile, s3);
    var s1 := PutString(c.runtimeAbi, s2);
    IdsWritten(c.requiredCapabilities, None, tail);
    IdsWritten(c.dependencies, None, s4);
    IdsWritten([], c.readinessProfile, s3);
    ScalarsWritten(0, c.runtimeAbi, 0, s2);
    ScalarsWritten(0, c.modelKey, 0, s1);
  }

  lemma CompatibilityCanonical(s: Bytes)
    ensures GetCompatibility(s).Ok? ==>
            FitsCompatibility(GetCompatibility(s).value)
              && PutCompatibility(GetCompatibility(s).value, GetCompatibility(s).rest) == s
  {
    hide PutString, GetString, PutIds, GetIds, PutOptId, GetOptId;
    if GetCompatibility(s).Ok? {
      ScalarsCanonical(s);
      var s1 := GetString(s).rest;
      ScalarsCanonical(s1);
      var s2 := GetString(s1).rest;
      IdsCanonical(s2);
      var s3 := GetOptId(s2).rest;
      IdsCanonical(s3);
      IdsCanonical(GetIds(s3).rest);
    }
  }

  predicate FitsDomainRequirement(d: DomainRequirement) {
    |d.forbiddenOverlapClasses| <= MAX_COUNT
  }

  predicate AnyClass(c: DomainClass) { true }
  function PutClass(c: DomainClass, tail: Bytes): Bytes { PutU8(c, tail) }
  function GetClass(s: Bytes): Parsed<DomainClass> {
    var (c, s) :- GetBelow(10, s);
    Ok(c, s)
  }

  function PutDomainRequirement(d: DomainRequirement, tail: Bytes): Bytes {
    PutBool(d.requireIndependence,
    PutU32(d.minDistinctHosts,
    PutU32(d.minDistinctDevices,
    PutList(PutClass, d.forbiddenOverlapClasses, tail))))
  }

  function GetDomainRequirement(s: Bytes): Parsed<DomainRequirement> {
    var (independence, s) :- GetBool(s);
    var (hosts, s) :- GetU32(s);
    var (devices, s) :- GetU32(s);
    var (classes, s) :- GetList(GetClass, s);
    Ok(DomainRequirement(independence, hosts, devices, classes), s)
  }

  lemma DomainRequirementWritten(d: DomainRequirement, tail: Bytes)
    requires FitsDomainRequirement(d)
    ensures GetDomainRequirement(PutDomainRequirement(d, tail)) == Ok(d, tail)
  {
    hide PutBool, GetBool, PutU32, GetU32;
    assert ReadsBack(PutClass, GetClass, AnyClass);
    ListWritten(PutClass, GetClass, AnyClass, d.forbiddenOverlapClasses, tail);
  }

  lemma DomainRequirementCanonical(s: Bytes)
    ensures GetDomainRequirement(s).Ok? ==>
            FitsDomainRequirement(GetDomainRequirement(s).value)
              && PutDomainRequirement(GetDomainRequirement(s).value, GetDomainRequirement(s).rest) == s
  {
    hide PutBool, GetBool, PutU32, GetU32;
    if GetDomainRequirement(s).Ok? {
      ScalarsCanonical(s);
      var s1 := GetBool(s).rest;
      IntegersCanonical(s1);
      var s2 := GetU32(s1).rest;
      IntegersCanonical(s2);
      assert Canonical(PutClass, GetClass, AnyClass);
      ListCanonical(PutClass, GetClass, AnyClass, GetU32(s2).rest);
    }
  }

  predicate FitsResource(r: ResourceRequirement) {
    |r.resourceClass| <= MAX_STRING && IsFinite(r.amount)
  }

  function PutResource(r: ResourceRequirement, tail: Bytes): Bytes {
    PutString(r.resourceClass, PutDouble(r.amount, PutBool(r.exactlyOneTarget, tail)))
  }

  function GetResource(s: Bytes): Parsed<ResourceRequirement> {
    var (cls, s) :- GetString(s);
    var (amount, s) :- GetDouble(s);
    var (one, s) :- GetBool(s);
    Ok(ResourceRequirement(cls, amount, one), s)
  }

  lemma ResourcesReadBack()
    ensures ReadsBack(PutResource, GetResource, FitsResource)
  {
    hide PutString, GetString, PutDouble, GetDouble;
    forall r, tail | FitsResource(r) ensures GetResource(PutResource(r, tail)) == Ok(r, tail) {
      ScalarsWritten(r.amount, [], 0, PutBool(r.exactlyOneTarget, tail));
      ScalarsWritten(0, r.resourceClass, 0, PutDouble(r.amount, PutBool(r.exactlyOneTarget, tail)));
    }
  }

  lemma ResourcesCanonical()
    ensures Canonical(PutResource, GetResource, FitsResource)
  {
    hide PutString, GetString, PutDouble, GetDouble, PutBool, GetBool;
    forall s | GetResource(s).Ok?
      ensures FitsResource(GetResource(s).value) && PutResource(GetResource(s).value, GetResource(s).rest) == s
    {
      ScalarsCanonical(s);
      var s1 := GetString(s).rest;
      ScalarsCanonical(s1);
      ScalarsCanonical(GetDouble(s1).rest);
    }
  }

  function PutRecovery(o: RecoveryObjective, tail: Bytes): Bytes {
    PutU64(o.rtoMs,
    PutU8(o.rtoAnchor,
    PutU8(ContinuityCode(o.continuity),
    PutU64(o.maxStateLossSequences,
    PutOptId(o.minCheckpointGen,
    PutBool(o.requiresVerifiedRecovery, tail))))))
  }

  function GetRecovery(s: Bytes): Parsed<RecoveryObjective> {
    var (rto, s) :- GetU64(s);
    var (anchor, s) :- GetBelow(3, s);
    var (continuity, s) :- GetBelow(7, s);
    var (loss, s) :- GetU64(s);
    var (checkpoint, s) :- GetOptId(s);
    var (verified, s) :- GetBool(s);
    Ok(RecoveryObjective(rto, anchor, ContinuityAt(continuity), loss, checkpoint, verified), s)
  }

  lemma RecoveryWritten(o: RecoveryObjective, tail: Bytes)
    ensures GetRecovery(PutRecovery(o, tail)) == Ok(o, tail)
  {
    hide PutU64, GetU64, PutU8, GetU8, PutBool, GetBool, PutOptId, GetOptId;
    IdsWritten([], o.minCheckpointGen, PutBool(o.requiresVerifiedRecovery, tail));
  }

  lemma RecoveryCanonical(s: Bytes)
    ensures GetRecovery(s).Ok? ==> PutRecovery(GetRecovery(s).value, GetRecovery(s).rest) == s
  {
    hide PutU64, GetU64, PutU8, GetU8, PutBool, GetBool, PutOptId, GetOptId;
    if GetRecovery(s).Ok? {
      IntegersCanonical(s);
      var s3 := GetBelow(7, GetBelow(3, GetU64(s).rest).rest).rest;
      IntegersCanonical(s3);
      var s4 := GetU64(s3).rest;
      IdsCanonical(s4);
      ScalarsCanonical(GetOptId(s4).rest);
    }
  }

  function PutAntiFlapping(p: AntiFlapping, tail: Bytes): Bytes {
    PutU32(p.maxAutoAttempts, PutU32(p.cooldownMs, PutU32(p.hysteresisMs, PutBool(p.manualInterventionRequired, tail))))
  }

  function GetAntiFlapping(s: Bytes): Parsed<AntiFlapping> {
    var (attempts, s) :- GetU32(s);
    var (cooldown, s) :- GetU32(s);
    var (hysteresis, s) :- GetU32(s);
    var (manual, s) :- GetBool(s);
    Ok(AntiFlapping(attempts, cooldown, hysteresis, manual), s)
  }

  lemma AntiFlappingWritten(p: AntiFlapping, tail: Bytes)
    ensures GetAntiFlapping(PutAntiFlapping(p, tail)) == Ok(p, tail)
  {
    hide PutU32, GetU32, PutBool, GetBool;
  }

  lemma AntiFlappingCanonical(s: Bytes)
    ensures GetAntiFlapping(s).Ok? ==> PutAntiFlapping(GetAntiFlapping(s).value, GetAntiFlapping(s).rest) == s
  {
    hide PutU32, GetU32, PutBool, GetBool;
    if GetAntiFlapping(s).Ok? {
      IntegersCanonical(s);
      var s1 := GetU32(s).rest;
      IntegersCanonical(s1);
      var s2 := GetU32(s1).rest;
      IntegersCanonical(s2);
      ScalarsCanonical(GetU32(s2).rest);
    }
  }

  predicate FitsService(d: ServiceDefinition) {
    && |d.name| <= MAX_STRING
    && FitsCompatibility(d.compatibility)
    && FitsDomainRequirement(d.domainRequirement)
    && |d.resources| <= MAX_COUNT && (forall r :: r in d.resources ==> FitsResource(r))
    && |d.requiredState| <= MAX_COUNT
  }

  /** The part of a definition after its resource list. */
  function PutServiceTail(d: ServiceDefinition, tail: Bytes): Bytes {
    PutRecovery(d.recovery,
    PutU8(FailbackCode(d.failback),
    PutAntiFlapping(d.antiFlapping,
    PutIds(d.requiredState,
    PutU8(d.provenance,
    PutU64(d.policyGeneration, tail))))))
  }

  function PutService(d: ServiceDefinition, tail: Bytes): Bytes {
    PutU64(d.service,
    PutU64(d.generation,
    PutU64(d.configGeneration,
    PutString(d.name,
    PutU8(d.role,
    PutU32(d.slotsFirst,
    PutU32(d.slotsCount,
    PutCompatibility(d.compatibility,
    PutDomainRequirement(d.domainRequirement,
    PutList(PutResource, d.resources,
    PutServiceTail(d, tail)))))))))))
  }

  datatype ServiceTail = ServiceTail(recovery: RecoveryObjective, failback: FailbackPolicy, antiFlapping: AntiFlapping,
                                     requiredState: seq<u64>, provenance: Provenance, policyGeneration: u64)

  function GetServiceTail(s: Bytes): Parsed<ServiceTail> {
    var (recovery, s) :- GetRecovery(s);
    var (failback, s) :- GetBelow(3, s);
    var (antiFlapping, s) :- GetAntiFlapping(s);
    var (state, s) :- GetIds(s);
    var (provenance, s) :- GetBelow(7, s);
    var (policy, s) :- GetU64(s);
    Ok(ServiceTail(recovery, FailbackAt(failback), antiFlapping, state, provenance, policy), s)
  }

  function GetService(s: Bytes): Parsed<ServiceDefinition> {
    var (service, s) :- GetU64(s);
    var (generation, s) :- GetU64(s);
    var (config, s) :- GetU64(s);
    var (name, s) :- GetString(s);
    var (role, s) :- GetBelow(3, s);
    var (first, s) :- GetU32(s);
    var (count, s) :- GetU32(s);
    var (compatibility, s) :- GetCompatibility(s);
    var (domains, s) :- GetDomainRequirement(s);
    var (resources, s) :- GetList(GetResource, s);
    var (t, s) :- GetServiceTail(s);
    Ok(ServiceDefinition(service, generation, config, name, role, first, count, compatibility, domains, resources,
                         t.recovery, t.failback, t.antiFlapping, t.requiredState, t.provenance, t.policyGeneration), s)
  }

  lemma ServiceTailWritten(d: ServiceDefinition, tail: Bytes)
    requires FitsService(d)
    ensures GetServiceTail(PutServiceTail(d, tail)) ==
            Ok(ServiceTail(d.recovery, d.failback, d.antiFlapping, d.requiredState, d.provenance, d.policyGeneration),
               tail)
  {
    hide PutU8, GetU8, PutU64, GetU64, PutIds, GetIds, PutRecovery, GetRecovery, PutAntiFlapping, GetAntiFlapping;
    var s5 := PutU8(d.provenance, PutU64(d.policyGeneration, tail));
    var s4 := PutIds(d.requiredState, s5);
    var s3 := PutAntiFlapping(d.antiFlapping, s4);
    IdsWritten(d.requiredState, None, s5);
    AntiFlappingWritten(d.antiFlapping, s4);
    RecoveryWritten(d.recovery, PutU8(FailbackCode(d.failback), s3));
  }

  lemma ServiceWritten(d: ServiceDefinition, tail: Bytes)
    requires FitsService(d)
    ensures GetService(PutService(d, tail)) == Ok(d, tail)
  {
    hide PutU8, GetU8, PutU32, GetU32, PutU64, GetU64, PutString, GetString, PutList, GetList,
      PutCompatibility, GetCompatibility, PutDomainRequirement, GetDomainRequirement, PutServiceTail, GetServiceTail;
    var s10 := PutServiceTail(d, tail);
    var s9 := PutList(PutResource, d.resources, s10);
    var s8 := PutDomainRequirement(d.domainRequirement, s9);
    var s7 := PutCompatibility(d.compatibility, s8);
    ServiceTailWritten(d, tail);
    ResourcesReadBack();
    ListWritten(PutResource, GetResource, FitsResource, d.resources, s10);
    DomainRequirementWritten(d.domainRequirement, s9);
    CompatibilityWritten(d.compatibility, s8);
    ScalarsWritten(0, d.name, 0, PutU8(d.role, PutU32(d.slotsFirst, PutU32(d.slotsCount, s7))));
  }

  lemma ServiceTailCanonical(s: Bytes, d: ServiceDefinition)
    requires GetServiceTail(s).Ok?
    requires var t := GetServiceTail(s).value;
             d.recovery == t.recovery && d.failback == t.failback && d.antiFlapping == t.antiFlapping &&
             d.requiredState == t.requiredState && d.provenance == t.provenance
               && d.policyGeneration == t.policyGeneration
    ensures |d.requiredState| <= MAX_COUNT && PutServiceTail(d, GetServiceTail(s).rest) == s
  {
    hide PutU8, GetU8, PutU64, GetU64, PutIds, GetIds, PutRecovery, GetRecovery, PutAntiFlapping, GetAntiFlapping;
    RecoveryCanonical(s);
    var s1 := GetRecovery(s).rest;
    var s2 := GetBelow(3, s1).rest;
    AntiFlappingCanonical(s2);
    var s3 := GetAntiFlapping(s2).rest;
    IdsCanonical(s3);
    var s4 := GetIds(s3).rest;
    IntegersCanonical(GetBelow(7, s4).rest);
  }

  lemma ServiceCanonical(s: Bytes)
    ensures GetService(s).Ok? ==>
            FitsService(GetService(s).value) && PutService(GetService(s).value, GetService(s).rest) == s
  {
    hide PutU8, GetU8, PutU32, GetU32, PutU64, GetU64, PutString, GetString, PutList, GetList,
      PutCompatibility, GetCompatibility, PutDomainRequirement, GetDomainRequirement, PutServiceTail, GetServiceTail;
    if GetService(s).Ok? {
      IntegersCanonical(s);
      var s1 := GetU64(s).rest;
      IntegersCanonical(s1);
      var s2 := GetU64(s1).rest;
      IntegersCanonical(s2);
      var s3 := GetU64(s2).rest;
      ScalarsCanonical(s3);
      var s5 := GetBelow(3, GetString(s3).rest).rest;
      IntegersCanonical(s5);
      var s6 := GetU32(s5).rest;
      IntegersCanonical(s6);
      var s7 := GetU32(s6).rest;
      CompatibilityCanonical(s7);
      var s8 := GetCompatibility(s7).rest;
      DomainRequirementCanonical(s8);
      var s9 := GetDomainRequirement(s8).rest;
      ResourcesCanonical();
      ListCanonical(PutResource, GetResource, FitsResource, s9);
      ServiceTailCanonical(GetList(GetResource, s9).rest, GetService(s).value);
    }
  }

  // ----- domains ---------------------------------------------------------------------

  predicate FitsDomain(d: DomainDecl) { |d.name| <= MAX_STRING }

  function PutDomain(d: DomainDecl, tail: Bytes): Bytes {
    PutU64(d.id, PutU64(d.generation, PutU8(d.cls, PutString(d.name, PutOptId(d.parent, PutU8(d.provenance, tail))))))
  }

  function GetDomain(s: Bytes): Parsed<DomainDecl> {
    var (id, s) :- GetU64(s);
    var (generation, s) :- GetU64(s);
    var (cls, s) :- GetBelow(10, s);
    var (name, s) :- GetString(s);
    var (parent, s) :- GetOptId(s);
    var (provenance, s) :- GetBelow(7, s);
    Ok(DomainDecl(id, generation, cls, name, parent, provenance), s)
  }

  lemma DomainWritten(d: DomainDecl, tail: Bytes)
    requires FitsDomain(d)
    ensures GetDomain(PutDomain(d, tail)) == Ok(d, tail)
  {
    hide PutU8, GetU8, PutU64, GetU64, PutString, GetString, PutOptId, GetOptId;
    var s4 := PutU8(d.provenance, tail);
    IdsWritten([], d.parent, s4);
    ScalarsWritten(0, d.name, 0, PutOptId(d.parent, s4));
  }

  lemma DomainCanonical(s: Bytes)
    ensures GetDomain(s).Ok? ==> FitsDomain(GetDomain(s).value) && PutDomain(GetDomain(s).value, GetDomain(s).rest) == s
  {
    hide PutU8, GetU8, PutU64, GetU64, PutString, GetString, PutOptId, GetOptId;
    if GetDomain(s).Ok? {
      IntegersCanonical(s);
      var s1 := GetU64(s).rest;
      IntegersCanonical(s1);
      var s3 := GetBelow(10, GetU64(s1).rest).rest;
      ScalarsCanonical(s3);
      IdsCanonical(GetString(s3).rest);
    }
  }

  predicate AnyMembership(m: Membership) { true }

  function PutMembership(m: Membership, tail: Bytes): Bytes {
    PutU64(m.target, PutU64(m.domain, PutBool(m.known, tail)))
  }

  function GetMembership(s: Bytes): Parsed<Membership> {
    var (target, s) :- GetU64(s);
    var (domain, s) :- GetU64(s);
    var (known, s) :- GetBool(s);
    Ok(Membership(target, domain, known), s)
  }

  lemma MembershipWritten(m: Membership, tail: Bytes)
    ensures GetMembership(PutMembership(m, tail)) == Ok(m, tail)
  {
    hide PutU64, GetU64, PutBool, GetBool;
  }

  lemma MembershipCanonical(s: Bytes)
    ensures GetMembership(s).Ok? ==> PutMembership(GetMembership(s).value, GetMembership(s).rest) == s
  {
    hide PutU64, GetU64, PutBool, GetBool;
    if GetMembership(s).Ok? {
      IntegersCanonical(s);
      var s1 := GetU64(s).rest;
      IntegersCanonical(s1);
      ScalarsCanonical(GetU64(s1).rest);
    }
  }

  // ----- failure evidence ------------------------------------------------------------

  predicate FitsEvent(e: FailureEvent) {
    IsFinite(e.confidence) && |e.mechanism| <= MAX_STRING && |e.detail| <= MAX_STRING
      && |e.affectedDomains| <= MAX_COUNT
  }

  function PutTimestamp(t: Timestamp, tail: Bytes): Bytes {
    PutSigned(t.wallNs, PutU64(t.seqNo, tail))
  }

  function GetTimestamp(s: Bytes): Parsed<Timestamp> {
    var (wall, s) :- GetSigned(s);
    var (seqNo, s) :- GetU64(s);
    Ok(Timestamp(wall, seqNo), s)
  }

  lemma TimestampWritten(t: Timestamp, tail: Bytes)
    ensures GetTimestamp(PutTimestamp(t, tail)) == Ok(t, tail)
  {
    hide PutU64, GetU64, PutSigned, GetSigned;
    ScalarsWritten(0, [], t.wallNs, PutU64(t.seqNo, tail));
  }

  lemma TimestampCanonical(s: Bytes)
    ensures GetTimestamp(s).Ok? ==> PutTimestamp(GetTimestamp(s).value, GetTimestamp(s).rest) == s
  {
    hide PutU64, GetU64, PutSigned, GetSigned;
    if GetTimestamp(s).Ok? {
      ScalarsCanonical(s);
      IntegersCanonical(GetSigned(s).rest);
    }
  }

  /** The subject of an event: what it is about and when it was seen. */
  datatype Subject = Subject(target: Option<u64>, targetGeneration: Option<u64>, domain: Option<u64>,
                             observed: Timestamp, received: Timestamp)

  function PutSubject(x: Subject, tail: Bytes): Bytes {
    PutOptId(x.target,
    PutOptId(x.targetGeneration,
    PutOptId(x.domain,
    PutTimestamp(x.observed,
    PutTimestamp(x.received, tail)))))
  }

  function GetSubject(s: Bytes): Parsed<Subject> {
    var (target, s) :- GetOptId(s);
    var (targetGeneration, s) :- GetOptId(s);
    var (domain, s) :- GetOptId(s);
    var (observed, s) :- GetTimestamp(s);
    var (received, s) :- GetTimestamp(s);
    Ok(Subject(target, targetGeneration, domain, observed, received), s)
  }

  lemma SubjectWritten(x: Subject, tail: Bytes)
    ensures GetSubject(PutSubject(x, tail)) == Ok(x, tail)
  {
    hide PutOptId, GetOptId, PutTimestamp, GetTimestamp;
    var s4 := PutTimestamp(x.received, tail);
    var s3 := PutTimestamp(x.observed, s4);
    var s2 := PutOptId(x.domain, s3);
    TimestampWritten(x.received, tail);
    TimestampWritten(x.observed, s4);
    IdsWritten([], x.domain, s3);
    IdsWritten([], x.targetGeneration, s2);
    IdsWritten([], x.target, PutOptId(x.targetGeneration, s2));
  }

  lemma SubjectCanonical(s: Bytes)
    ensures GetSubject(s).Ok? ==> PutSubject(GetSubject(s).value, GetSubject(s).rest) == s
  {
    hide PutOptId, GetOptId, PutTimestamp, GetTimestamp;
    if GetSubject(s).Ok? {
      IdsCanonical(s);
      var s1 := GetOptId(s).rest;
      IdsCanonical(s1);
      var s2 := GetOptId(s1).rest;
      IdsCanonical(s2);
      var s3 := GetOptId(s2).rest;
      TimestampCanonical(s3);
      TimestampCanonical(GetTimestamp(s3).rest);
    }
  }

  function PutEvent(e: FailureEvent, tail: Bytes): Bytes {
    PutWords([e.eventId, e.generation, e.source, e.sourceBoot],
      PutU8(e.category,
      PutU8(StatusCode(e.status),
      PutU8(e.provenance,
      PutU8(e.severity,
      PutDouble(e.confidence,
      PutSubject(Subject(e.target, e.targetGeneration, e.domain, e.observed, e.received),
      PutString(e.mechanism,
      PutString(e.detail,
      PutIds(e.affectedDomains,
      PutBool(e.revalidatesExisting, tail)))))))))))
  }

  function GetEvent(s: Bytes): Parsed<FailureEvent> {
    var (v, s) :- GetWords(4, s);
    var (category, s) :- GetBelow(13, s);
    var (status, s) :- GetBelow(5, s);
    var (provenance, s) :- GetBelow(7, s);
    var (severity, s) :- GetBelow(4, s);
    var (confidence, s) :- GetDouble(s);
    var (x, s) :- GetSubject(s);
    var (mechanism, s) :- GetString(s);
    var (detail, s) :- GetString(s);
    var (affected, s) :- GetIds(s);
    var (revalidates, s) :- GetBool(s);
    Ok(FailureEvent(v[0], v[1], v[2], v[3], category, StatusAt(status), provenance, severity, confidence,
                    x.target, x.targetGeneration, x.domain, x.observed, x.received,
                    mechanism, detail, affected, revalidates), s)
  }

  lemma EventWritten(e: FailureEvent, tail: Bytes)
    requires FitsEvent(e)
    ensures GetEvent(PutEvent(e, tail)) == Ok(e, tail)
  {
    hide PutU8, GetU8, PutWords, GetWords, PutDouble, GetDouble, PutSubject, GetSubject, PutString, GetString,
      PutIds, GetIds, PutBool, GetBool;
    var x := Subject(e.target, e.targetGeneration, e.domain, e.observed, e.received);
    var s9 := PutBool(e.revalidatesExisting, tail);
    var s8 := PutIds(e.affectedDomains, s9);
    var s7 := PutString(e.detail, s8);
    var s6 := PutString(e.mechanism, s7);
    var s5 := PutSubject(x, s6);
    var s4 := PutDouble(e.confidence, s5);
    IdsWritten(e.affectedDomains, None, s9);
    ScalarsWritten(0, e.detail, 0, s8);
    ScalarsWritten(0, e.mechanism, 0, s7);
    SubjectWritten(x, s6);
    ScalarsWritten(e.confidence, [], 0, s5);
    WordsWritten([e.eventId, e.generation, e.source, e.sourceBoot],
      PutU8(e.category, PutU8(StatusCode(e.status), PutU8(e.provenance, PutU8(e.severity, s4)))));
  }

  lemma EventCanonical(s: Bytes)
    ensures GetEvent(s).Ok? ==> FitsEvent(GetEvent(s).value) && PutEvent(GetEvent(s).value, GetEvent(s).rest) == s
  {
    hide PutU8, GetU8, PutWords, GetWords, PutDouble, GetDouble, PutSubject, GetSubject, PutString, GetString,
      PutIds, GetIds, PutBool, GetBool;
    if GetEvent(s).Ok? {
      WordsCanonical(4, s);
      var v := GetWords(4, s).value;
      assert v == [v[0], v[1], v[2], v[3]];
      var s4 := GetBelow(4, GetBelow(7, GetBelow(5, GetBelow(13, GetWords(4, s).rest).rest).rest).rest).rest;
      ScalarsCanonical(s4);
      var s5 := GetDouble(s4).rest;
      SubjectCanonical(s5);
      var s6 := GetSubject(s5).rest;
      ScalarsCanonical(s6);
      var s7 := GetString(s6).rest;
      ScalarsCanonical(s7);
      var s8 := GetString(s7).rest;
      IdsCanonical(s8);
      ScalarsCanonical(GetIds(s8).rest);
    }
  }

  // ----- routes and epochs -----------------------------------------------------------

  predicate FitsRoute(e: RouteEntry) { |e.transport| <= MAX_STRING }

  const ROUTE_WORDS: nat := 14

  function RouteWords(e: RouteEntry): (v: seq<u64>)
    ensures |v| == ROUTE_WORDS
  {
    [e.route, e.generation, e.slot.service, e.slot.slot, e.target, e.targetGeneration, e.incarnation, e.permittedBoot,
     e.assignment, e.assignmentGeneration, e.epoch.value, e.epoch.id, e.epoch.boot, e.gatewayBoot]
  }

  function RouteOf(v: seq<u64>, state: RouteState, transport: Bytes, provenance: Provenance): (e: RouteEntry)
    requires |v| == ROUTE_WORDS
    ensures RouteWords(e) == v
  {
    RouteEntry(v[0], v[1], SlotKey(v[2], v[3]), v[4], v[5], v[6], v[7], v[8], v[9],
               Epoch(v[10], v[11], v[12]), v[13], state, transport, provenance)
  }

  function PutRoute(e: RouteEntry, tail: Bytes): Bytes {
    PutWords(RouteWords(e), PutU8(RouteStateCode(e.state), PutString(e.transport, PutU8(e.provenance, tail))))
  }

  function GetRoute(s: Bytes): Parsed<RouteEntry> {
    var (v, s) :- GetWords(ROUTE_WORDS, s);
    var (state, s) :- GetBelow(6, s);
    var (transport, s) :- GetString(s);
    var (provenance, s) :- GetBelow(7, s);
    Ok(RouteOf(v, RouteStateAt(state), transport, provenance), s)
  }

  lemma RouteWritten(e: RouteEntry, tail: Bytes)
    requires FitsRoute(e)
    ensures GetRoute(PutRoute(e, tail)) == Ok(e, tail)
  {
    hide PutU8, GetU8, PutWords, GetWords, PutString, GetString;
    var s2 := PutString(e.transport, PutU8(e.provenance, tail));
    ScalarsWritten(0, e.transport, 0, PutU8(e.provenance, tail));
    WordsWritten(RouteWords(e), PutU8(RouteStateCode(e.state), s2));
  }

  lemma RouteCanonical(s: Bytes)
    ensures GetRoute(s).Ok? ==> FitsRoute(GetRoute(s).value) && PutRoute(GetRoute(s).value, GetRoute(s).rest) == s
  {
    hide PutU8, GetU8, PutWords, GetWords, PutString, GetString;
    if GetRoute(s).Ok? {
      WordsCanonical(ROUTE_WORDS, s);
      ScalarsCanonical(GetBelow(6, GetWords(ROUTE_WORDS, s).rest).rest);
    }
  }
}
