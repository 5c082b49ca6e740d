/** Hard eligibility and deterministic replacement selection. The floating-point ranking score
    is a parameter: nothing here depends on how it is computed. */
module Selection {
  import opened Types
  import opened Domains

  datatype Facts = Facts(
    target: u64, targetGeneration: u64, service: u64, replica: u64, replicaGeneration: u64, engine: u64,
    engineIncarnation: u64, workerBoot: u64, profile: u64, modelKey: Bytes, runtimeAbi: Bytes,
    readinessGeneration: u64, ready: bool, evidenceFresh: bool)

  datatype StateFacts = StateFacts(
    available: bool, stateGeneration: Option<u64>, checkpointGeneration: Option<u64>,
    correctSession: bool, correctTenant: bool, correctModelGeneration: bool, formatOk: bool, integrityOk: bool)

  datatype Resource = Resource(resourceClass: Bytes, amount: DoubleBits, conflicting: bool, revoked: bool)

  datatype Costs = Costs(prepMs: u64, restoreMs: u64, cutoverMs: u64, criticalPathMs: u64, stateLoss: u64)

  datatype Exclusion =
    | NoEligibleTarget | StaleReadiness | IncompatibleProfile | FailedDomain | DomainIndependenceUnknown
    | InsufficientCapacity | CommitmentConflict | StateUnavailable | StateTooOld | FencedBoot
    | ResourcesRevoked | UnreadyEngine | UnsupportedContinuity

  datatype Candidate = Candidate(
    facts: Facts, state: StateFacts, resources: seq<Resource>, costs: Costs, continuity: Option<ContinuityClass>,
    failedReason: Option<Exclusion>, hardEligible: bool)

  datatype Context = Context(
    failedTarget: u64, confirmedFailed: seq<u64>, fencedBoots: seq<u64>, failedDomains: seq<u64>,
    preferred: Option<u64>, requiresFreshReadiness: bool)

  // ----- hard eligibility ------------------------------------------------------------

  predicate StateComplete(s: StateFacts) {
    s.available && s.correctSession && s.correctTenant && s.correctModelGeneration && s.formatOk && s.integrityOk
  }

  function ContinuityFault(c: Candidate, svc: ServiceDefinition): Option<Exclusion> {
    var required := svc.recovery.continuity;
    if !required.CheckpointRestore? && !required.SessionStateRebind? then None
    else if !StateComplete(c.state) then Some(StateUnavailable)
    else if svc.recovery.minCheckpointGen.Some? && c.state.checkpointGeneration.Some?
            && c.state.checkpointGeneration.value < svc.recovery.minCheckpointGen.value then Some(StateTooOld)
    else if c.continuity.None? || c.continuity.value.UnknownContinuity? then Some(UnsupportedContinuity)
    else None
  }

  /** Only the first resource of the required class is looked at. */
  function ResourceFault(rs: seq<Resource>, req: ResourceRequirement): Option<Exclusion> {
    if rs == [] then Some(InsufficientCapacity)
    else if rs[0].resourceClass != req.resourceClass then ResourceFault(rs[1..], req)
    else if rs[0].revoked then Some(ResourcesRevoked)
    else if rs[0].conflicting then Some(CommitmentConflict)
    else if DoubleLess(rs[0].amount, req.amount) then Some(InsufficientCapacity)
    else None
  }

  function ResourcesFault(rs: seq<Resource>, reqs: seq<ResourceRequirement>): Option<Exclusion> {
    if reqs == [] then None
    else if ResourceFault(rs, reqs[0]).Some? then ResourceFault(rs, reqs[0])
    else ResourcesFault(rs, reqs[1..])
  }

  function FailedDomainFault(dom: Registry, t: u64, fds: seq<u64>): Option<Exclusion> {
    if fds == [] then None
    else match InDomain(dom, t, fds[0])
      case None => Some(DomainIndependenceUnknown)
      case Some(inside) => if inside then Some(FailedDomain) else FailedDomainFault(dom, t, fds[1..])
  }

  function DomainFault(c: Candidate, svc: ServiceDefinition, dom: Registry, ctx: Context): Option<Exclusion> {
    if !svc.domainRequirement.requireIndependence then None
    else match Overlaps(dom, c.facts.target, ctx.failedTarget)
      case None => Some(DomainIndependenceUnknown)
      case Some(true) => Some(FailedDomain)
      case Some(false) => FailedDomainFault(dom, c.facts.target, ctx.failedDomains)
  }

  predicate Compatible(f: Facts, k: Compatibility) {
    && (k.modelKey != [] ==> f.modelKey == k.modelKey)
    && (k.runtimeAbi != [] ==> f.runtimeAbi == k.runtimeAbi)
    && (k.readinessProfile.Some? ==> f.profile == k.readinessProfile.value)
  }

  /** The first objection, in the order the engine raises them. */
  function HardFault(c: Candidate, svc: ServiceDefinition, dom: Registry, ctx: Context): Option<Exclusion> {
    if c.facts.target != 0 && c.facts.target == ctx.failedTarget then Some(FailedDomain)
    else if c.facts.target in ctx.confirmedFailed then Some(FailedDomain)
    else if c.facts.workerBoot in ctx.fencedBoots then Some(FencedBoot)
    else if ctx.requiresFreshReadiness && !c.facts.evidenceFresh then Some(StaleReadiness)
    else if ctx.requiresFreshReadiness && !c.facts.ready then Some(UnreadyEngine)
    else if !Compatible(c.facts, svc.compatibility) then Some(IncompatibleProfile)
    else if ContinuityFault(c, svc).Some? then ContinuityFault(c, svc)
    else if ResourcesFault(c.resources, svc.resources).Some? then ResourcesFault(c.resources, svc.resources)
    else DomainFault(c, svc, dom, ctx)
  }

  predicate Eligible(c: Candidate, svc: ServiceDefinition, dom: Registry, ctx: Context) {
    HardFault(c, svc, dom, ctx).None?
  }

  /** The engine's note on the candidate it judged. */
  function Judged(c: Candidate, svc: ServiceDefinition, dom: Registry, ctx: Context): Candidate {
    var fault := HardFault(c, svc, dom, ctx);
    if fault.None? then c.(hardEligible := true, failedReason := None) else c.(failedReason := fault)
  }

  method JudgeResources(rs: seq<Resource>, reqs: seq<ResourceRequirement>) returns (fault: Option<Exclusion>)
    ensures fault == ResourcesFault(rs, reqs)
  {
    for i := 0 to |reqs|
      invariant ResourcesFault(rs, reqs[i..]) == ResourcesFault(rs, reqs)
    {
      var found := false;
      var k := 0;
      while k < |rs|
        invariant k <= |rs| && !found
        invariant ResourceFault(rs[k..], reqs[i]) == ResourceFault(rs, reqs[i])
      {
        if rs[k].resourceClass == reqs[i].resourceClass {
          found := true;
          if rs[k].revoked {
            return Some(ResourcesRevoked);
          }
          if rs[k].conflicting {
            return Some(CommitmentConflict);
          }
          if DoubleLess(rs[k].amount, reqs[i].amount) {
            return Some(InsufficientCapacity);
          }
          break;
        }
        k := k + 1;
      }
      if !found {
        return Some(InsufficientCapacity);
      }
    }
    return None;
  }

  /** Hard eligibility by the engine's own control flow; the candidate comes back annotated. */
  method JudgeCandidate(c: Candidate, svc: ServiceDefinition, dom: Registry, ctx: Context)
    returns (ok: bool, judged: Candidate)
    ensures ok == Eligible(c, svc, dom, ctx) && judged == Judged(c, svc, dom, ctx)
  {
    if c.facts.target != 0 && c.facts.target == ctx.failedTarget {
      return false, c.(failedReason := Some(FailedDomain));
    }
    if c.facts.target in ctx.confirmedFailed {
      return false, c.(failedReason := Some(FailedDomain));
    }
    if c.facts.workerBoot in ctx.fencedBoots {
      return false, c.(failedReason := Some(FencedBoot));
    }
    if ctx.requiresFreshReadiness {
      if !c.facts.evidenceFresh {
        return false, c.(failedReason := Some(StaleReadiness));
      }
      if !c.facts.ready {
        return false, c.(failedReason := Some(UnreadyEngine));
      }
    }
    if !Compatible(c.facts, svc.compatibility) {
      return false, c.(failedReason := Some(IncompatibleProfile));
    }
    var fault := ContinuityFault(c, svc);
    if fault.Some? {
      return false, c.(failedReason := fault);
    }
    fault := JudgeResources(c.resources, svc.resources);
    if fault.Some? {
      return false, c.(failedReason := fault);
    }
    if svc.domainRequirement.requireIndependence {
      var overlap := ComputeOverlaps(dom, c.facts.target, ctx.failedTarget);
      if overlap.None? {
        return false, c.(failedReason := Some(DomainIndependenceUnknown));
      }
      if overlap.value {
        return false, c.(failedReason := Some(FailedDomain));
      }
      for i := 0 to |ctx.failedDomains|
        invariant FailedDomainFault(dom, c.facts.target, ctx.failedDomains[i..])
                  == FailedDomainFault(dom, c.facts.target, ctx.failedDomains)
      {
        var inside := InDomain(dom, c.facts.target, ctx.failedDomains[i]);
        if inside.Some? && inside.value {
          return false, c.(failedReason := Some(FailedDomain));
        }
        if inside.None? {
          return false, c.(failedReason := Some(DomainIndependenceUnknown));
        }
      }
    }
    return true, c.(hardEligible := true, failedReason := None);
  }

  /** Everything a promotable candidate must be, with no order of checks. */
  ghost predicate Qualified(c: Candidate, svc: ServiceDefinition, dom: Registry, ctx: Context) {
    && (c.facts.target == 0 || c.facts.target != ctx.failedTarget)
    && c.facts.target !in ctx.confirmedFailed
    && c.facts.workerBoot !in ctx.fencedBoots
    && (ctx.requiresFreshReadiness ==> c.facts.evidenceFresh && c.facts.ready)
    && Compatible(c.facts, svc.compatibility)
    && (svc.recovery.continuity.CheckpointRestore? || svc.recovery.continuity.SessionStateRebind? ==>
          && StateComplete(c.state)
          && (svc.recovery.minCheckpointGen.Some? && c.state.checkpointGeneration.Some? ==>
                c.state.checkpointGeneration.value >= svc.recovery.minCheckpointGen.value)
          && c.continuity.Some? && !c.continuity.value.UnknownContinuity?)
    && (forall req :: req in svc.resources ==> Supplies(c.resources, req))
    && (svc.domainRequirement.requireIndependence ==>
          && Overlaps(dom, c.facts.target, ctx.failedTarget) == Some(false)
          && forall fd :: fd in ctx.failedDomains ==> InDomain(dom, c.facts.target, fd) == Some(false))
  }

  /** The first resource of the class exists and is free, unrevoked and large enough. */
  ghost predicate Supplies(rs: seq<Resource>, req: ResourceRequirement) {
    exists k :: 0 <= k < |rs| && FirstOfClass(rs, k, req.resourceClass) &&
      !rs[k].revoked && !rs[k].conflicting && !DoubleLess(rs[k].amount, req.amount)
  }

  ghost predicate FirstOfClass(rs: seq<Resource>, k: nat, cls: Bytes)
    requires k < |rs|
  {
    rs[k].resourceClass == cls && forall j :: 0 <= j < k ==> rs[j].resourceClass != cls
  }

  lemma {:induction false} ResourceFaultExact(rs: seq<Resource>, req: ResourceRequirement)
    ensures ResourceFault(rs, req).None? <==> Supplies(rs, req)
  {
    if rs != [] {
      ResourceFaultExact(rs[1..], req);
      if rs[0].resourceClass == req.resourceClass {
        assert FirstOfClass(rs, 0, req.resourceClass);
      } else {
        if Supplies(rs[1..], req) {
          var k :| 0 <= k < |rs| - 1 && FirstOfClass(rs[1..], k, req.resourceClass) &&
            !rs[1..][k].revoked && !rs[1..][k].conflicting && !DoubleLess(rs[1..][k].amount, req.amount);
          assert FirstOfClass(rs, k + 1, req.resourceClass);
        }
        if Supplies(rs, req) {
          var k :| 0 <= k < |rs| && FirstOfClass(rs, k, req.resourceClass) &&
            !rs[k].revoked && !rs[k].conflicting && !DoubleLess(rs[k].amount, req.amount);
          assert FirstOfClass(rs[1..], k - 1, req.resourceClass);
        }
      }
    }
  }

  lemma {:induction false} ResourcesFaultExact(rs: seq<Resource>, reqs: seq<ResourceRequirement>)
    ensures ResourcesFault(rs, reqs).None? <==> forall req :: req in reqs ==> Supplies(rs, req)
  {
    if reqs != [] {
      ResourceFaultExact(rs, reqs[0]);
      ResourcesFaultExact(rs, reqs[1..]);
    }
  }

  lemma {:induction false} FailedDomainFaultExact(dom: Registry, t: u64, fds: seq<u64>)
    ensures FailedDomainFault(dom, t, fds).None? <==> forall fd :: fd in fds ==> InDomain(dom, t, fd) == Some(false)
  {
    if fds != [] {
      FailedDomainFaultExact(dom, t, fds[1..]);
    }
  }

  /** The ordered checks accept exactly the qualified candidates. */
  lemma EligibleExact(c: Candidate, svc: ServiceDefinition, dom: Registry, ctx: Context)
    ensures Eligible(c, svc, dom, ctx) <==> Qualified(c, svc, dom, ctx)
  {
    hide Overlaps, InDomain, Supplies;
    ResourcesFaultExact(c.resources, svc.resources);
    FailedDomainFaultExact(dom, c.facts.target, ctx.failedDomains);
  }

  // ----- why a candidate is excluded -------------------------------------------------

  /** The candidate is the target being replaced, or has a confirmed failure. */
  predicate Gone(c: Candidate, ctx: Context) {
    (c.facts.target != 0 && c.facts.target == ctx.failedTarget) || c.facts.target in ctx.confirmedFailed
  }

  /** What is wrong with the resources for one requirement: only the first of the class is looked at. */
  ghost predicate Lacks(rs: seq<Resource>, req: ResourceRequirement, r: Exclusion) {
    || (r == InsufficientCapacity && forall k :: 0 <= k < |rs| ==> rs[k].resourceClass != req.resourceClass)
    || exists k :: 0 <= k < |rs| && FirstOfClass(rs, k, req.resourceClass) && Faulty(rs[k], req, r)
  }

  predicate Faulty(x: Resource, req: ResourceRequirement, r: Exclusion) {
    || (r == ResourcesRevoked && x.revoked)
    || (r == CommitmentConflict && x.conflicting && !x.revoked)
    || (r == InsufficientCapacity && DoubleLess(x.amount, req.amount) && !x.revoked && !x.conflicting)
  }

  predicate NeedsState(svc: ServiceDefinition) {
    svc.recovery.continuity in {CheckpointRestore, SessionStateRebind}
  }

  /** The candidate breaks the rule that the reason names. */
  ghost predicate Breaks(r: Exclusion, c: Candidate, svc: ServiceDefinition, dom: Registry, ctx: Context) {
    match r
    case NoEligibleTarget => false
    case FencedBoot => c.facts.workerBoot in ctx.fencedBoots
    case StaleReadiness => ctx.requiresFreshReadiness && !c.facts.evidenceFresh
    case UnreadyEngine => ctx.requiresFreshReadiness && !c.facts.ready
    case IncompatibleProfile => !Compatible(c.facts, svc.compatibility)
    case StateUnavailable => NeedsState(svc) && !StateComplete(c.state)
    case StateTooOld =>
      NeedsState(svc) && svc.recovery.minCheckpointGen.Some? && c.state.checkpointGeneration.Some?
      && c.state.checkpointGeneration.value < svc.recovery.minCheckpointGen.value
    case UnsupportedContinuity => NeedsState(svc) && (c.continuity.None? || c.continuity.value == UnknownContinuity)
    case DomainIndependenceUnknown =>
      svc.domainRequirement.requireIndependence
      && (Overlaps(dom, c.facts.target, ctx.failedTarget).None?
          || exists fd :: fd in ctx.failedDomains && InDomain(dom, c.facts.target, fd).None?)
    case FailedDomain =>
      Gone(c, ctx) ||
      (svc.domainRequirement.requireIndependence
       && (Overlaps(dom, c.facts.target, ctx.failedTarget) == Some(true)
           || exists fd :: fd in ctx.failedDomains && InDomain(dom, c.facts.target, fd) == Some(true)))
    case _ => exists req :: req in svc.resources && Lacks(c.resources, req, r)
  }

  /** Which rule speaks first. */
  function Turn(r: Exclusion): nat {
    match r
    case FencedBoot => 0
    case StaleReadiness => 1
    case UnreadyEngine => 2
    case IncompatibleProfile => 3
    case StateUnavailable => 4
    case StateTooOld => 5
    case UnsupportedContinuity => 6
    case InsufficientCapacity => 7
    case CommitmentConflict => 7
    case ResourcesRevoked => 7
    case _ => 8
  }

  lemma {:induction false} ResourceReason(rs: seq<Resource>, req: ResourceRequirement)
    requires ResourceFault(rs, req).Some?
    ensures Lacks(rs, req, ResourceFault(rs, req).value)
  {
    if rs != [] {
      if rs[0].resourceClass == req.resourceClass {
        assert FirstOfClass(rs, 0, req.resourceClass);
      } else {
        var r := ResourceFault(rs, req).value;
        ResourceReason(rs[1..], req);
        if k :| 0 <= k < |rs| - 1 && FirstOfClass(rs[1..], k, req.resourceClass) && Faulty(rs[1..][k], req, r) {
          assert FirstOfClass(rs, k + 1, req.resourceClass) && Faulty(rs[k + 1], req, r);
        }
      }
    }
  }

  lemma {:induction false} ResourcesReason(rs: seq<Resource>, reqs: seq<ResourceRequirement>)
    requires ResourcesFault(rs, reqs).Some?
    ensures exists req :: req in reqs && Lacks(rs, req, ResourcesFault(rs, reqs).value)
    ensures Turn(ResourcesFault(rs, reqs).value) == 7
  {
    hide Lacks;
    if ResourceFault(rs, reqs[0]).Some? {
      ResourceReason(rs, reqs[0]);
      ResourceTurn(rs, reqs[0]);
    } else {
      ResourcesReason(rs, reqs[1..]);
    }
  }

  lemma {:induction false} ResourceTurn(rs: seq<Resource>, req: ResourceRequirement)
    ensures ResourceFault(rs, req).Some? ==> Turn(ResourceFault(rs, req).value) == 7
  {
    if rs != [] {
      ResourceTurn(rs[1..], req);
    }
  }

  lemma SuppliedLacksNothing(rs: seq<Resource>, req: ResourceRequirement, r: Exclusion)
    requires Supplies(rs, req)
    ensures !Lacks(rs, req, r)
  {
    var k :| 0 <= k < |rs| && FirstOfClass(rs, k, req.resourceClass) &&
      !rs[k].revoked && !rs[k].conflicting && !DoubleLess(rs[k].amount, req.amount);
    forall j | 0 <= j < |rs| && FirstOfClass(rs, j, req.resourceClass) ensures !Faulty(rs[j], req, r) {
      assert j == k;
    }
  }

  lemma {:induction false} FailedDomainReason(dom: Registry, t: u64, fds: seq<u64>)
    requires FailedDomainFault(dom, t, fds).Some?
    ensures FailedDomainFault(dom, t, fds).value in {FailedDomain, DomainIndependenceUnknown}
    ensures var answer := if FailedDomainFault(dom, t, fds).value == FailedDomain then Some(true) else None;
            exists fd :: fd in fds && InDomain(dom, t, fd) == answer
  {
    hide InDomain;
    if InDomain(dom, t, fds[0]) == Some(false) {
      FailedDomainReason(dom, t, fds[1..]);
    }
  }

  /** The reason given for an exclusion names a rule that the candidate breaks; a failed target is
      always reported as such, and of the other rules the first broken one is reported. */
  lemma ReasonIsFirstBroken(c: Candidate, svc: ServiceDefinition, dom: Registry, ctx: Context)
    requires HardFault(c, svc, dom, ctx).Some?
    ensures var r := HardFault(c, svc, dom, ctx).value;
            && Breaks(r, c, svc, dom, ctx)
            && (Gone(c, ctx) ==> r == FailedDomain)
            && (!Gone(c, ctx) ==> forall x: Exclusion :: Turn(x) < Turn(r) ==> !Breaks(x, c, svc, dom, ctx))
  {
    hide Overlaps, InDomain, Lacks, Supplies;
    ResourcesFaultExact(c.resources, svc.resources);
    if ResourcesFault(c.resources, svc.resources).Some? {
      ResourcesReason(c.resources, svc.resources);
    } else {
      forall req, x | req in svc.resources ensures !Lacks(c.resources, req, x) {
        SuppliedLacksNothing(c.resources, req, x);
      }
    }
    if FailedDomainFault(dom, c.facts.target, ctx.failedDomains).Some? {
      FailedDomainReason(dom, c.facts.target, ctx.failedDomains);
    }
  }

  /** Under the independence rule an eligible candidate shares no domain with the failed
      target, and nobody's membership is unknown. */
  lemma EligibleIsIndependent(c: Candidate, svc: ServiceDefinition, dom: Registry, ctx: Context)
    requires Eligible(c, svc, dom, ctx) && svc.domainRequirement.requireIndependence
    requires c.facts.target != ctx.failedTarget && WithinWalk(dom)
    ensures !exists d :: Inside(dom, c.facts.target, d) && Inside(dom, ctx.failedTarget, d)
    ensures !AnyUnknown(dom.memberships, c.facts.target) && !AnyUnknown(dom.memberships, ctx.failedTarget)
  {
    hide Inside, Overlaps, AnyUnknown;
    EligibleExact(c, svc, dom, ctx);
    OverlapsExact(dom, c.facts.target, ctx.failedTarget);
  }

  /** An eligible candidate under the independence rule lies in or under a failed domain if and only
      if it is declared in a domain under it; and then the failed target is outside that domain. */
  lemma EligibleUnderFailedDomainIff(c: Candidate, svc: ServiceDefinition, dom: Registry, ctx: Context, fd: u64)
    requires Eligible(c, svc, dom, ctx) && svc.domainRequirement.requireIndependence && fd in ctx.failedDomains
    ensures Inside(dom, c.facts.target, fd) <==> MemberUnder(dom, c.facts.target, fd)
    ensures c.facts.target != ctx.failedTarget && WithinWalk(dom) && Inside(dom, c.facts.target, fd) ==>
              !Inside(dom, ctx.failedTarget, fd)
  {
    hide Inside, MemberUnder, Overlaps, AnyUnknown, WithinWalk, Supplies;
    EligibleExact(c, svc, dom, ctx);
    InsideIff(dom, c.facts.target, fd);
    if c.facts.target != ctx.failedTarget && WithinWalk(dom) {
      EligibleIsIndependent(c, svc, dom, ctx);
    }
  }

  /** The service without its independence rule. */
  function Unconstrained(svc: ServiceDefinition): ServiceDefinition {
    svc.(domainRequirement := svc.domainRequirement.(requireIndependence := false))
  }

  /** Such candidates exist: a target in a rack whose site has failed passes, whatever the other rules
      ask for, as long as it meets them. */
  lemma RackOfFailedSiteIsEligible(c: Candidate, svc: ServiceDefinition, ctx: Context, site: u64, rack: u64)
    requires site != rack && ctx.failedDomains == [site] && c.facts.target != ctx.failedTarget
    requires Eligible(c, Unconstrained(svc), RackInSite(site, rack, c.facts.target), ctx)
    ensures var dom := RackInSite(site, rack, c.facts.target);
            Eligible(c, svc, dom, ctx) && Inside(dom, c.facts.target, site)
  {
    var dom := RackInSite(site, rack, c.facts.target);
    assert Overlaps(dom, c.facts.target, ctx.failedTarget) == Some(false) by {
      assert dom.memberships[1..] == [];
      assert ClosureList(dom, dom.memberships, ctx.failedTarget) == [];
    }
    hide Inside, Overlaps, InDomain, MemberUnder, RackInSite, Supplies;
    RackIsMissed(site, rack, c.facts.target);
    EligibleExact(c, Unconstrained(svc), dom, ctx);
    EligibleExact(c, svc, dom, ctx);
  }

  // ----- ranking ---------------------------------------------------------------------

  type Rank = Candidate -> u64

  predicate Preferred(c: Candidate, ctx: Context) {
    ctx.preferred == Some(c.facts.target)
  }

  /** The comparator of the sort. */
  predicate Before(a: Candidate, b: Candidate, ctx: Context, rank: Rank) {
    if Preferred(a, ctx) != Preferred(b, ctx) then Preferred(a, ctx)
    else if rank(a) != rank(b) then rank(a) > rank(b)
    else if a.facts.target != b.facts.target then a.facts.target < b.facts.target
    else a.facts.workerBoot < b.facts.workerBoot
  }

  function Insert(c: Candidate, xs: seq<Candidate>, ctx: Context, rank: Rank): seq<Candidate> {
    if xs == [] then [c]
    else if Before(xs[0], c, ctx, rank) then [xs[0]] + Insert(c, xs[1..], ctx, rank)
    else [c] + xs
  }

  /** Stable sort: equal candidates keep their order. */
  function Sort(xs: seq<Candidate>, ctx: Context, rank: Rank): seq<Candidate> {
    if xs == [] then [] else Insert(xs[0], Sort(xs[1..], ctx, rank), ctx, rank)
  }

  ghost predicate InOrder(xs: seq<Candidate>, ctx: Context, rank: Rank) {
    forall i, j :: 0 <= i < j < |xs| ==> !Before(xs[j], xs[i], ctx, rank)
  }

  /** The comparator is a strict total order up to ties in preference, rank, target and boot. */
  lemma ComparatorIsStrictOrder(a: Candidate, b: Candidate, c: Candidate, ctx: Context, rank: Rank)
    ensures !Before(a, a, ctx, rank)
    ensures Before(a, b, ctx, rank) ==> !Before(b, a, ctx, rank)
    ensures Before(a, b, ctx, rank) && Before(b, c, ctx, rank) ==> Before(a, c, ctx, rank)
    ensures !Before(a, b, ctx, rank) && !Before(b, c, ctx, rank) ==> !Before(a, c, ctx, rank)
    ensures !Before(a, b, ctx, rank) && !Before(b, a, ctx, rank) ==>
              a.facts.target == b.facts.target && a.facts.workerBoot == b.facts.workerBoot
  {
  }

  lemma {:induction false} InsertSorts(c: Candidate, xs: seq<Candidate>, ctx: Context, rank: Rank)
    requires InOrder(xs, ctx, rank)
    ensures InOrder(Insert(c, xs, ctx, rank), ctx, rank)
    ensures multiset(Insert(c, xs, ctx, rank)) == multiset(xs) + multiset{c}
  {
    if xs == [] {
    } else if Before(xs[0], c, ctx, rank) {
      InsertSorts(c, xs[1..], ctx, rank);
      var rest := Insert(c, xs[1..], ctx, rank);
      assert xs == [xs[0]] + xs[1..];
      forall k | 0 <= k < |rest| ensures !Before(rest[k], xs[0], ctx, rank) {
        assert rest[k] in multiset(rest);
        assert rest[k] == c || rest[k] in xs[1..];
      }
    } else {
      forall k | 0 <= k < |xs| ensures !Before(xs[k], c, ctx, rank) {
        ComparatorIsStrictOrder(xs[k], xs[0], c, ctx, rank);
      }
    }
  }

  lemma {:induction false} SortSorts(xs: seq<Candidate>, ctx: Context, rank: Rank)
    ensures InOrder(Sort(xs, ctx, rank), ctx, rank)
    ensures multiset(Sort(xs, ctx, rank)) == multiset(xs)
  {
    if xs != [] {
      SortSorts(xs[1..], ctx, rank);
      InsertSorts(xs[0], Sort(xs[1..], ctx, rank), ctx, rank);
      assert xs == [xs[0]] + xs[1..];
    }
  }

  predicate Tied(a: Candidate, b: Candidate, ctx: Context, rank: Rank) {
    !Before(a, b, ctx, rank) && !Before(b, a, ctx, rank)
  }

  /** The candidates of a list that the comparator cannot tell from `c`, in order. */
  function TiedWith(xs: seq<Candidate>, c: Candidate, ctx: Context, rank: Rank): seq<Candidate> {
    if xs == [] then [] else (if Tied(xs[0], c, ctx, rank) then [xs[0]] else []) + TiedWith(xs[1..], c, ctx, rank)
  }

  lemma {:induction false} InsertIsStable(x: Candidate, ys: seq<Candidate>, c: Candidate, ctx: Context, rank: Rank)
    ensures TiedWith(Insert(x, ys, ctx, rank), c, ctx, rank) ==
            (if Tied(x, c, ctx, rank) then [x] else []) + TiedWith(ys, c, ctx, rank)
  {
    hide Before;
    if ys == [] {
      assert [x][1..] == [];
    } else if Before(ys[0], x, ctx, rank) {
      InsertIsStable(x, ys[1..], c, ctx, rank);
      ComparatorIsStrictOrder(ys[0], c, x, ctx, rank);
      assert !(Tied(x, c, ctx, rank) && Tied(ys[0], c, ctx, rank));
      assert ([ys[0]] + Insert(x, ys[1..], ctx, rank))[1..] == Insert(x, ys[1..], ctx, rank);
    } else {
      assert ([x] + ys)[1..] == ys;
    }
  }

  /** The sort is stable: candidates that the comparator cannot tell apart keep their order. */
  lemma {:induction false} SortIsStable(xs: seq<Candidate>, c: Candidate, ctx: Context, rank: Rank)
    ensures TiedWith(Sort(xs, ctx, rank), c, ctx, rank) == TiedWith(xs, c, ctx, rank)
  {
    hide Before;
    if xs != [] {
      SortIsStable(xs[1..], c, ctx, rank);
      InsertIsStable(xs[0], Sort(xs[1..], ctx, rank), c, ctx, rank);
    }
  }

  /** No two different candidates tie. */
  ghost predicate TiesAreEqual(xs: seq<Candidate>, ctx: Context, rank: Rank) {
    forall a, b :: a in xs && b in xs && !Before(a, b, ctx, rank) && !Before(b, a, ctx, rank) ==> a == b
  }

  /** The head of one arrangement, found and taken out of another. */
  lemma TakeOut<T>(xs: seq<T>, ys: seq<T>) returns (k: nat, rest: seq<T>)
    requires xs != [] && multiset(xs) == multiset(ys)
    ensures k < |ys| && ys[k] == xs[0] && rest == ys[..k] + ys[k + 1..]
    ensures multiset(xs[1..]) == multiset(rest)
  {
    assert xs[0] in multiset(ys);
    k :| 0 <= k < |ys| && ys[k] == xs[0];
    rest := ys[..k] + ys[k + 1..];
    assert xs == [xs[0]] + xs[1..];
    assert ys == ys[..k] + [ys[k]] + ys[k + 1..];
    assert multiset(xs[1..]) == multiset(xs) - multiset{xs[0]};
    assert multiset(rest) == multiset(ys) - multiset{ys[k]};
  }

  lemma TailMultiset<T>(xs: seq<T>)
    requires xs != []
    ensures multiset(xs[1..]) == multiset(xs) - multiset{xs[0]}
  {
    assert xs == [xs[0]] + xs[1..];
  }

  lemma {:induction false} SortedIsUnique(xs: seq<Candidate>, ys: seq<Candidate>, ctx: Context, rank: Rank)
    requires InOrder(xs, ctx, rank) && InOrder(ys, ctx, rank)
    requires multiset(xs) == multiset(ys) && TiesAreEqual(xs, ctx, rank)
    ensures xs == ys
  {
    hide Before;
    assert |multiset(xs)| == |xs| && |multiset(ys)| == |ys|;
    if xs != [] {
      SortedSameHead(xs, ys, ctx, rank);
      TailMultiset(xs);
      TailMultiset(ys);
      SortedIsUnique(xs[1..], ys[1..], ctx, rank);
      assert xs == [xs[0]] + xs[1..] && ys == [ys[0]] + ys[1..];
    }
  }

  lemma SortedSameHead(xs: seq<Candidate>, ys: seq<Candidate>, ctx: Context, rank: Rank)
    requires InOrder(xs, ctx, rank) && InOrder(ys, ctx, rank) && xs != [] && ys != []
    requires multiset(xs) == multiset(ys) && TiesAreEqual(xs, ctx, rank)
    ensures xs[0] == ys[0]
  {
    assert xs[0] in multiset(ys) && ys[0] in multiset(xs);
    var j :| 0 <= j < |ys| && ys[j] == xs[0];
    var i :| 0 <= i < |xs| && xs[i] == ys[0];
    ComparatorIsStrictOrder(xs[0], xs[0], xs[0], ctx, rank);
    ComparatorIsStrictOrder(ys[0], ys[0], ys[0], ctx, rank);
    assert !Before(xs[0], ys[0], ctx, rank) && !Before(ys[0], xs[0], ctx, rank);
  }

  // ----- selection -------------------------------------------------------------------

  datatype Selection = Selection(selected: Option<Candidate>, alternatives: seq<Candidate>,
                                 exclusions: seq<(u64, Exclusion)>)

  function Shortlist(xs: seq<Candidate>, svc: ServiceDefinition, dom: Registry, ctx: Context): seq<Candidate> {
    if xs == [] then []
    else (if Eligible(xs[0], svc, dom, ctx) then [Judged(xs[0], svc, dom, ctx)]
          else []) + Shortlist(xs[1..], svc, dom, ctx)
  }

  function Excluded(xs: seq<Candidate>, svc: ServiceDefinition, dom: Registry, ctx: Context): seq<(u64, Exclusion)> {
    if xs == [] then []
    else (match HardFault(xs[0], svc, dom, ctx) case None => [] case Some(r) => [(xs[0].facts.target, r)])
         + Excluded(xs[1..], svc, dom, ctx)
  }

  function Select(xs: seq<Candidate>, svc: ServiceDefinition, dom: Registry, ctx: Context, rank: Rank): Selection {
    var order := Sort(Shortlist(xs, svc, dom, ctx), ctx, rank);
    var out := Excluded(xs, svc, dom, ctx);
    if order == [] then Selection(None, [], if out == [] then [(0, NoEligibleTarget)] else out)
    else Selection(Some(order[0]), order[1..], out)
  }

  method StableSort(xs: seq<Candidate>, ctx: Context, rank: Rank) returns (ys: seq<Candidate>)
    ensures ys == Sort(xs, ctx, rank)
  {
    ys := [];
    var i := |xs|;
    while i > 0
      invariant 0 <= i <= |xs| && ys == Sort(xs[i..], ctx, rank)
    {
      i := i - 1;
      assert xs[i..][1..] == xs[i + 1..];
      ys := Insert(xs[i], ys, ctx, rank);
    }
    assert xs[0..] == xs;
  }

  /** Phase 1: judge every candidate and split the snapshot. */
  method SplitCandidates(xs: seq<Candidate>, svc: ServiceDefinition, dom: Registry, ctx: Context)
    returns (eligible: seq<Candidate>, out: seq<(u64, Exclusion)>)
    ensures eligible == Shortlist(xs, svc, dom, ctx) && out == Excluded(xs, svc, dom, ctx)
  {
    hide HardFault;
    eligible, out := [], [];
    for i := 0 to |xs|
      invariant eligible == Shortlist(xs[..i], svc, dom, ctx)
      invariant out == Excluded(xs[..i], svc, dom, ctx)
    {
      assert xs[..i + 1] == xs[..i] + [xs[i]];
      ShortlistConcat(xs[..i], [xs[i]], svc, dom, ctx);
      ShortlistOfOne(xs[i], svc, dom, ctx);
      var ok, judged := JudgeCandidate(xs[i], svc, dom, ctx);
      if ok {
        eligible := eligible + [judged];
      } else if judged.failedReason.Some? {
        out := out + [(judged.facts.target, judged.failedReason.value)];
      }
    }
    assert xs[..|xs|] == xs;
  }

  lemma ShortlistOfOne(x: Candidate, svc: ServiceDefinition, dom: Registry, ctx: Context)
    ensures Shortlist([x], svc, dom, ctx) == if Eligible(x, svc, dom, ctx) then [Judged(x, svc, dom, ctx)] else []
    ensures Excluded([x], svc, dom, ctx) ==
            match HardFault(x, svc, dom, ctx) case None => [] case Some(r) => [(x.facts.target, r)]
  {
    hide HardFault;
    assert Shortlist([x][1..], svc, dom, ctx) == [] && Excluded([x][1..], svc, dom, ctx) == [];
  }

  method RunSelection(xs: seq<Candidate>, svc: ServiceDefinition, dom: Registry, ctx: Context, rank: Rank)
    returns (r: Selection)
    ensures r == Select(xs, svc, dom, ctx, rank)
  {
    hide HardFault, Shortlist, Excluded;
    var eligible, out := SplitCandidates(xs, svc, dom, ctx);
    SortSorts(eligible, ctx, rank);
    if eligible == [] {
      if out == [] {
        out := [(0, NoEligibleTarget)];
      }
      return Selection(None, [], out);
    }
    var order := StableSort(eligible, ctx, rank);
    assert |multiset(order)| == |multiset(eligible)|;
    return Selection(Some(order[0]), order[1..], out);
  }

  lemma {:induction false} ShortlistConcat(a: seq<Candidate>, b: seq<Candidate>, svc: ServiceDefinition, dom: Registry,
                                           ctx: Context)
    ensures Shortlist(a + b, svc, dom, ctx) == Shortlist(a, svc, dom, ctx) + Shortlist(b, svc, dom, ctx)
    ensures Excluded(a + b, svc, dom, ctx) == Excluded(a, svc, dom, ctx) + Excluded(b, svc, dom, ctx)
  {
    hide HardFault, Eligible, Judged;
    if a == [] {
      assert a + b == b;
    } else {
      ShortlistConcat(a[1..], b, svc, dom, ctx);
      assert (a + b)[0] == a[0] && (a + b)[1..] == a[1..] + b;
      Reassociate(if Eligible(a[0], svc, dom, ctx) then [Judged(a[0], svc, dom, ctx)] else [],
        Shortlist(a[1..], svc, dom, ctx), Shortlist(b, svc, dom, ctx));
      Reassociate(match HardFault(a[0], svc, dom, ctx) case None => [] case Some(r) => [(a[0].facts.target, r)],
        Excluded(a[1..], svc, dom, ctx), Excluded(b, svc, dom, ctx));
    }
  }

  lemma Reassociate<T>(x: seq<T>, y: seq<T>, z: seq<T>)
    ensures x + (y + z) == (x + y) + z
  {
  }

  lemma ShortlistTakeOut(ys: seq<Candidate>, k: nat, svc: ServiceDefinition, dom: Registry, ctx: Context)
    requires k < |ys|
    ensures multiset(Shortlist(ys, svc, dom, ctx)) ==
            multiset(Shortlist([ys[k]], svc, dom, ctx)) + multiset(Shortlist(ys[..k] + ys[k + 1..], svc, dom, ctx))
    ensures multiset(Excluded(ys, svc, dom, ctx)) ==
            multiset(Excluded([ys[k]], svc, dom, ctx)) + multiset(Excluded(ys[..k] + ys[k + 1..], svc, dom, ctx))
  {
    hide Shortlist, Excluded;
    assert ys == ys[..k] + ([ys[k]] + ys[k + 1..]);
    ShortlistConcat(ys[..k], [ys[k]] + ys[k + 1..], svc, dom, ctx);
    ShortlistConcat([ys[k]], ys[k + 1..], svc, dom, ctx);
    ShortlistConcat(ys[..k], ys[k + 1..], svc, dom, ctx);
  }

  lemma {:induction false} ShortlistPermutes(xs: seq<Candidate>, ys: seq<Candidate>, svc: ServiceDefinition,
                                             dom: Registry, ctx: Context)
    requires multiset(xs) == multiset(ys)
    ensures multiset(Shortlist(xs, svc, dom, ctx)) == multiset(Shortlist(ys, svc, dom, ctx))
    ensures multiset(Excluded(xs, svc, dom, ctx)) == multiset(Excluded(ys, svc, dom, ctx))
  {
    hide Shortlist, Excluded;
    if xs == [] {
      assert |multiset(ys)| == 0;
    } else {
      var k, rest := TakeOut(xs, ys);
      ShortlistPermutes(xs[1..], rest, svc, dom, ctx);
      ShortlistTakeOut(ys, k, svc, dom, ctx);
      ShortlistTakeOut(xs, 0, svc, dom, ctx);
      assert xs[..0] + xs[1..] == xs[1..];
    }
  }

  lemma {:induction false} ShortlistMembers(xs: seq<Candidate>, svc: ServiceDefinition, dom: Registry, ctx: Context,
                                            c: Candidate)
    ensures c in Shortlist(xs, svc, dom, ctx) <==>
            exists x :: x in xs && Eligible(x, svc, dom, ctx) && c == Judged(x, svc, dom, ctx)
  {
    hide HardFault;
    if xs != [] {
      ShortlistMembers(xs[1..], svc, dom, ctx, c);
      assert forall x :: x in xs <==> x == xs[0] || x in xs[1..];
    }
  }

  /** Same (target, boot) means same candidate. */
  ghost predicate KeyDetermines(xs: seq<Candidate>) {
    forall a, b ::
      a in xs && b in xs && a.facts.target == b.facts.target && a.facts.workerBoot == b.facts.workerBoot ==> a == b
  }

  /** The order of the snapshot does not matter: permuting it gives the same selected candidate,
      the same ordered alternatives, and the same exclusions up to order. */
  lemma SelectionIgnoresOrder(xs: seq<Candidate>, ys: seq<Candidate>, svc: ServiceDefinition, dom: Registry,
                              ctx: Context, rank: Rank)
    requires multiset(xs) == multiset(ys) && KeyDetermines(xs)
    ensures var r, s := Select(xs, svc, dom, ctx, rank), Select(ys, svc, dom, ctx, rank);
            r.selected == s.selected && r.alternatives == s.alternatives
              && multiset(r.exclusions) == multiset(s.exclusions)
  {
    hide HardFault, Shortlist, Excluded, Sort, InOrder;
    var a, b := Shortlist(xs, svc, dom, ctx), Shortlist(ys, svc, dom, ctx);
    ShortlistPermutes(xs, ys, svc, dom, ctx);
    SortSorts(a, ctx, rank);
    SortSorts(b, ctx, rank);
    var sa, sb := Sort(a, ctx, rank), Sort(b, ctx, rank);
    forall p, q | p in sa && q in sa && !Before(p, q, ctx, rank) && !Before(q, p, ctx, rank) ensures p == q {
      assert p in multiset(sa) && q in multiset(sa);
      ShortlistMembers(xs, svc, dom, ctx, p);
      ShortlistMembers(xs, svc, dom, ctx, q);
      ComparatorIsStrictOrder(p, q, p, ctx, rank);
    }
    SortedIsUnique(sa, sb, ctx, rank);
    var ea, eb := Excluded(xs, svc, dom, ctx), Excluded(ys, svc, dom, ctx);
    assert |multiset(ea)| == |ea| && |multiset(eb)| == |eb|;
  }

  /** Needed: two different eligible candidates that tie come out in snapshot order. */
  lemma TiesKeepSnapshotOrder(a: Candidate, b: Candidate, svc: ServiceDefinition, dom: Registry, ctx: Context,
                              rank: Rank)
    requires Eligible(a, svc, dom, ctx) && Eligible(b, svc, dom, ctx)
    requires var p, q := Judged(a, svc, dom, ctx), Judged(b, svc, dom, ctx);
             p != q && !Before(p, q, ctx, rank) && !Before(q, p, ctx, rank)
    ensures Select([a, b], svc, dom, ctx, rank).selected != Select([b, a], svc, dom, ctx, rank).selected
  {
    hide HardFault;
    var p, q := Judged(a, svc, dom, ctx), Judged(b, svc, dom, ctx);
    assert Shortlist([b], svc, dom, ctx) == [q] && Shortlist([a], svc, dom, ctx) == [p];
    assert [a, b][1..] == [b] && [b, a][1..] == [a];
    assert Shortlist([a, b], svc, dom, ctx) == [p, q] && Shortlist([b, a], svc, dom, ctx) == [q, p];
    assert Sort([q], ctx, rank) == [q] && Sort([p], ctx, rank) == [p];
    assert [p, q][1..] == [q] && [q, p][1..] == [p];
    assert Sort([p, q], ctx, rank)[0] == p && Sort([q, p], ctx, rank)[0] == q;
  }

  function Targets(xs: seq<Candidate>): seq<u64> {
    if xs == [] then [] else [xs[0].facts.target] + Targets(xs[1..])
  }

  function ExcludedTargets(xs: seq<(u64, Exclusion)>): seq<u64> {
    if xs == [] then [] else [xs[0].0] + ExcludedTargets(xs[1..])
  }

  lemma {:induction false} ShortlistPartitions(xs: seq<Candidate>, svc: ServiceDefinition, dom: Registry, ctx: Context)
    ensures multiset(Targets(xs)) ==
            multiset(Targets(Shortlist(xs, svc, dom, ctx))) + multiset(ExcludedTargets(Excluded(xs, svc, dom, ctx)))
    ensures |xs| == |Shortlist(xs, svc, dom, ctx)| + |Excluded(xs, svc, dom, ctx)|
  {
    hide HardFault;
    if xs != [] {
      ShortlistPartitions(xs[1..], svc, dom, ctx);
      var s, e := Shortlist(xs[1..], svc, dom, ctx), Excluded(xs[1..], svc, dom, ctx);
      if Eligible(xs[0], svc, dom, ctx) {
        assert Shortlist(xs, svc, dom, ctx) == [Judged(xs[0], svc, dom, ctx)] + s && Excluded(xs, svc, dom, ctx) == e;
        assert Targets([Judged(xs[0], svc, dom, ctx)] + s) == [xs[0].facts.target] + Targets(s);
      } else {
        var x := (xs[0].facts.target, HardFault(xs[0], svc, dom, ctx).value);
        assert Excluded(xs, svc, dom, ctx) == [x] + e && Shortlist(xs, svc, dom, ctx) == s;
        assert ExcludedTargets([x] + e) == [xs[0].facts.target] + ExcludedTargets(e);
      }
    }
  }

  lemma {:induction false} TargetsOfPermutation(xs: seq<Candidate>, ys: seq<Candidate>)
    requires multiset(xs) == multiset(ys)
    ensures multiset(Targets(xs)) == multiset(Targets(ys))
  {
    if xs == [] {
      assert |multiset(ys)| == 0;
    } else {
      var k, rest := TakeOut(xs, ys);
      TargetsOfPermutation(xs[1..], rest);
      TargetsConcat(ys[..k], ys[k + 1..]);
      TargetsConcat(ys[..k], [ys[k]] + ys[k + 1..]);
      assert ys == ys[..k] + ([ys[k]] + ys[k + 1..]);
      assert ([ys[k]] + ys[k + 1..])[1..] == ys[k + 1..];
    }
  }

  lemma {:induction false} TargetsConcat(a: seq<Candidate>, b: seq<Candidate>)
    ensures Targets(a + b) == Targets(a) + Targets(b)
  {
    if a == [] {
      assert a + b == b;
      assert [] + Targets(b) == Targets(b);
    } else {
      TargetsConcat(a[1..], b);
      assert (a + b)[0] == a[0] && (a + b)[1..] == a[1..] + b;
      Reassociate([a[0].facts.target], Targets(a[1..]), Targets(b));
    }
  }

  /** Every candidate of a non-empty snapshot is accounted for exactly once, as selected,
      alternative, or excluded; and the selected one is first among the eligible. */
  lemma SelectionPartitions(xs: seq<Candidate>, svc: ServiceDefinition, dom: Registry, ctx: Context, rank: Rank)
    requires xs != []
    ensures var r := Select(xs, svc, dom, ctx, rank);
            var kept := (if r.selected.Some? then [r.selected.value] else []) + r.alternatives;
            && |kept| + |r.exclusions| == |xs|
            && multiset(Targets(kept)) + multiset(ExcludedTargets(r.exclusions)) == multiset(Targets(xs))
            && InOrder(kept, ctx, rank)
            && (forall c :: c in kept ==>
                exists x :: x in xs && Eligible(x, svc, dom, ctx) && c == Judged(x, svc, dom, ctx))
  {
    hide HardFault;
    var short := Shortlist(xs, svc, dom, ctx);
    var order := Sort(short, ctx, rank);
    ShortlistPartitions(xs, svc, dom, ctx);
    SortSorts(short, ctx, rank);
    TargetsOfPermutation(order, short);
    assert |multiset(order)| == |order| && |multiset(short)| == |short|;
    var r := Select(xs, svc, dom, ctx, rank);
    var kept := (if r.selected.Some? then [r.selected.value] else []) + r.alternatives;
    assert kept == order;
    forall c | c in kept ensures exists x :: x in xs && Eligible(x, svc, dom, ctx) && c == Judged(x, svc, dom, ctx) {
      assert c in multiset(order);
      ShortlistMembers(xs, svc, dom, ctx, c);
    }
  }

  lemma {:induction false} ExcludedFrom(xs: seq<Candidate>, svc: ServiceDefinition, dom: Registry, ctx: Context,
                                        out: (u64, Exclusion))
    ensures out in Excluded(xs, svc, dom, ctx) <==>
            exists x :: x in xs && x.facts.target == out.0 && HardFault(x, svc, dom, ctx) == Some(out.1)
  {
    hide HardFault;
    if xs != [] {
      ExcludedFrom(xs[1..], svc, dom, ctx, out);
      assert forall x :: x in xs <==> x == xs[0] || x in xs[1..];
    }
  }

  lemma SomebodyIsJudged(xs: seq<Candidate>, svc: ServiceDefinition, dom: Registry, ctx: Context, rank: Rank)
    ensures var order := Sort(Shortlist(xs, svc, dom, ctx), ctx, rank);
            |order| + |Excluded(xs, svc, dom, ctx)| == |xs|
  {
    hide HardFault, Sort, InOrder, Targets, ExcludedTargets;
    var short := Shortlist(xs, svc, dom, ctx);
    var order := Sort(short, ctx, rank);
    ShortlistPartitions(xs, svc, dom, ctx);
    SortSorts(short, ctx, rank);
    assert |multiset(order)| == |order| && |multiset(short)| == |short|;
  }

  /** Every exclusion that is reported is that of a candidate of the snapshot and names a rule that it
      breaks; only an empty snapshot is reported as having no eligible target. */
  lemma ExclusionsAreExplained(xs: seq<Candidate>, svc: ServiceDefinition, dom: Registry, ctx: Context, rank: Rank,
                               out: (u64, Exclusion))
    requires out in Select(xs, svc, dom, ctx, rank).exclusions
    ensures if xs == [] then out == (0, NoEligibleTarget)
            else exists x :: x in xs && x.facts.target == out.0 && Breaks(out.1, x, svc, dom, ctx)
  {
    hide HardFault, Breaks, Sort, Shortlist, Excluded, InOrder;
    ExcludedFrom(xs, svc, dom, ctx, out);
    SomebodyIsJudged(xs, svc, dom, ctx, rank);
    if xs != [] {
      var x :| x in xs && x.facts.target == out.0 && HardFault(x, svc, dom, ctx) == Some(out.1);
      ReasonIsFirstBroken(x, svc, dom, ctx);
    }
  }

  /** `a` may stand before `b`: a preferred target before any other; then the higher rank; then the
      smaller target id; then the smaller boot. */
  ghost predicate NoWorse(a: Candidate, b: Candidate, preferred: Option<u64>, rank: Rank) {
    var pa, pb := preferred == Some(a.facts.target), preferred == Some(b.facts.target);
    && (pb ==> pa)
    && (pa == pb ==> rank(a) >= rank(b))
    && (pa == pb && rank(a) == rank(b) ==> a.facts.target <= b.facts.target)
    && (pa == pb && rank(a) == rank(b) && a.facts.target == b.facts.target ==> a.facts.workerBoot <= b.facts.workerBoot)
  }

  /** The selection is the best of the eligible candidates: no worse than any of them, in preference,
      rank, target and boot; and the alternatives follow in that order, all of them. */
  lemma SelectedIsBest(xs: seq<Candidate>, svc: ServiceDefinition, dom: Registry, ctx: Context, rank: Rank)
    ensures var r := Select(xs, svc, dom, ctx, rank);
            && (r.selected.None? <==> forall x :: x in xs ==> !Eligible(x, svc, dom, ctx))
            && (r.selected.None? ==> r.alternatives == [])
            && (forall x :: x in xs && Eligible(x, svc, dom, ctx) ==>
                  && r.selected.Some?
                  && NoWorse(r.selected.value, Judged(x, svc, dom, ctx), ctx.preferred, rank)
                  && (Judged(x, svc, dom, ctx) == r.selected.value || Judged(x, svc, dom, ctx) in r.alternatives))
            && (forall i, j :: 0 <= i < j < |r.alternatives| ==>
                  NoWorse(r.alternatives[i], r.alternatives[j], ctx.preferred, rank))
            && (forall c :: c in r.alternatives ==> NoWorse(r.selected.value, c, ctx.preferred, rank))
  {
    hide HardFault, Sort, Shortlist;
    var short := Shortlist(xs, svc, dom, ctx);
    var order := Sort(short, ctx, rank);
    SortSorts(short, ctx, rank);
    OrderIsBest(order, ctx, rank);
    forall c
      ensures c in order <==> exists x :: x in xs && Eligible(x, svc, dom, ctx) && c == Judged(x, svc, dom, ctx)
    {
      assert c in order <==> c in multiset(order);
      assert c in short <==> c in multiset(short);
      ShortlistMembers(xs, svc, dom, ctx, c);
    }
    forall x | x in xs && Eligible(x, svc, dom, ctx) ensures Judged(x, svc, dom, ctx) in order {
    }
    if order != [] {
      assert order[0] in order;
      assert order == [order[0]] + order[1..];
    }
  }

  lemma OrderIsBest(order: seq<Candidate>, ctx: Context, rank: Rank)
    requires InOrder(order, ctx, rank)
    ensures forall i, j :: 0 <= i <= j < |order| ==> NoWorse(order[i], order[j], ctx.preferred, rank)
  {
    forall i, j | 0 <= i <= j < |order| ensures NoWorse(order[i], order[j], ctx.preferred, rank) {
      if i < j {
        assert !Before(order[j], order[i], ctx, rank);
      }
    }
  }

  /** With a preferred target, the selection lands on it if and only if one of its candidates is
      eligible. */
  lemma PreferredWinsIffEligible(xs: seq<Candidate>, svc: ServiceDefinition, dom: Registry, ctx: Context, rank: Rank)
    requires ctx.preferred.Some?
    ensures var r := Select(xs, svc, dom, ctx, rank);
            (r.selected.Some? && r.selected.value.facts.target == ctx.preferred.value) <==>
            exists x :: x in xs && x.facts.target == ctx.preferred.value && Eligible(x, svc, dom, ctx)
  {
    hide HardFault;
    var short := Shortlist(xs, svc, dom, ctx);
    var order := Sort(short, ctx, rank);
    SortSorts(short, ctx, rank);
    if x :| x in xs && x.facts.target == ctx.preferred.value && Eligible(x, svc, dom, ctx) {
      var c := Judged(x, svc, dom, ctx);
      ShortlistMembers(xs, svc, dom, ctx, c);
      assert c in multiset(order);
      var k :| 0 <= k < |order| && order[k] == c;
      assert k == 0 || !Before(order[k], order[0], ctx, rank);
    }
    if order != [] {
      assert order[0] in multiset(order);
      ShortlistMembers(xs, svc, dom, ctx, order[0]);
    }
  }
}
