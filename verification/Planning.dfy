/** A plan against the state it is executed in: a plan made there is valid there, and which plans are
    refused. */
module Planning {
  import opened Types
  import opened Domains
  import opened Selection
  import opened Routing
  import opened Fabric
  import opened Cutover
  import opened Attempts
  import opened Reports

  // ----- candidates ------------------------------------------------------------------

  /** A snapshot holds a target in one form only. */
  lemma SameTargetSameCandidate(w: World, slot: SlotKey, c: Candidate, d: Candidate)
    requires Filed(w) && c in Candidates(w, slot) && d in Candidates(w, slot) && c.facts.target == d.facts.target
    ensures c == d
  {
    hide Candidates, Offered;
    CandidatesExact(w, slot, c);
    CandidatesExact(w, slot, d);
    var i: nat :| Offered(w, slot, i) && MadeFrom(w.targets, i, c);
    var j: nat :| Offered(w, slot, j) && MadeFrom(w.targets, j, d);
  }

  lemma EligibleIgnoresPreference(c: Candidate, svc: ServiceDefinition, f: Fabric, slot: SlotKey, p: Option<u64>)
    ensures Eligible(c, svc, f.world.domains, BuildContext(f, slot, p)) <==>
            Eligible(c, svc, f.world.domains, BuildContext(f, slot, None))
  {
    hide ContinuityFault, ResourcesFault, FailedDomainFault, Overlaps, Compatible, BoundTargets, SortUnique, Failed,
      DomainsOfAll, CurrentOf;
  }

  /** Whoever is planned is a candidate of the state that passes every rule. */
  lemma PlannedIsEligible(f: Fabric, slot: SlotKey, preferred: Option<u64>, rank: Rank) returns (c: Candidate)
    requires PlanFailover(f, slot, preferred, rank).Planned?
    ensures var plan := PlanFailover(f, slot, preferred, rank).plan;
            var svc := FindService(f.world.services, slot.service);
            && svc.Some? && c in Candidates(f.world, slot)
            && Eligible(c, svc.value, f.world.domains, BuildContext(f, slot, None))
            && plan.slot == slot && plan.source == CurrentOf(f.ledger, slot)
            && plan.selected.Some? && plan.selected.value.facts == c.facts
  {
    hide Candidates, BuildContext, HardFault, Sort, Shortlist, Excluded, CurrentOf, CurrentRoute;
    var svc := FindService(f.world.services, slot.service).value;
    var ctx := BuildContext(f, slot, preferred);
    var list := Shortlist(Candidates(f.world, slot), svc, f.world.domains, ctx);
    var order := Sort(list, ctx, rank);
    SortSorts(list, ctx, rank);
    assert order[0] in multiset(order);
    ShortlistMembers(Candidates(f.world, slot), svc, f.world.domains, ctx, order[0]);
    c :| c in Candidates(f.world, slot) && Eligible(c, svc, f.world.domains, ctx)
      && order[0] == Judged(c, svc, f.world.domains, ctx);
    EligibleIgnoresPreference(c, svc, f, slot, preferred);
  }

  // ----- validity --------------------------------------------------------------------

  /** The planned target, as it is a candidate now, and promotable now. */
  ghost predicate Suits(f: Fabric, plan: Plan, c: Candidate) {
    var svc := FindService(f.world.services, plan.slot.service);
    && svc.Some? && plan.selected.Some? && c in Candidates(f.world, plan.slot)
    && c.facts.target == plan.selected.value.facts.target
    && c.facts.workerBoot == plan.selected.value.facts.workerBoot
    && Qualified(c, svc.value, f.world.domains, BuildContext(f, plan.slot, None))
  }

  /** A plan is accepted if and only if its service is known, somebody was selected, the assignment it
      means to replace is still current, the selected target is still a candidate under the same boot
      and passes every rule now, and the authority generation is not exhausted. */
  lemma ValidatesIff(f: Fabric, plan: Plan)
    requires Filed(f.world)
    ensures Validate(f, plan).Valid? <==>
            && plan.selected.Some?
            && (plan.source.Some? ==>
                  var cur := CurrentOf(f.ledger, plan.slot);
                  cur.Some? && KeyOf(cur.value) == KeyOf(plan.source.value))
            && (exists c :: Suits(f, plan, c))
            && f.ledger.lastAuthority < U64_LIMIT - 1
    ensures Validate(f, plan).Valid? ==>
              && Suits(f, plan, Validate(f, plan).attempt.selected)
              && Validate(f, plan).attempt.source == CurrentOf(f.ledger, plan.slot)
  {
    hide Candidates, BuildContext, HardFault, Qualified, CurrentOf, Filed, UsesCuda;
    if plan.selected.Some? && FindService(f.world.services, plan.slot.service).Some? {
      var svc := FindService(f.world.services, plan.slot.service).value;
      var cs := Candidates(f.world, plan.slot);
      var x := plan.selected.value.facts;
      var found := FirstMatch(cs, x.target, x.workerBoot);
      if found.Some? {
        EligibleExact(found.value, svc, f.world.domains, BuildContext(f, plan.slot, None));
        assert Eligible(found.value, svc, f.world.domains, BuildContext(f, plan.slot, None)) <==>
               Suits(f, plan, found.value);
      }
      if c :| Suits(f, plan, c) {
        FirstMatchFinds(cs, c);
        SameTargetSameCandidate(f.world, plan.slot, c, found.value);
      }
    }
  }

  /** A plan executed in the state it was made in is valid unless the authority generation is exhausted,
      and it promotes the very candidate that was planned. */
  lemma PlanIsValid(f: Fabric, slot: SlotKey, preferred: Option<u64>, rank: Rank)
    requires Filed(f.world) && PlanFailover(f, slot, preferred, rank).Planned?
    ensures var plan := PlanFailover(f, slot, preferred, rank).plan;
            && (Validate(f, plan).Valid? <==> f.ledger.lastAuthority < U64_LIMIT - 1)
            && (Validate(f, plan).Valid? ==>
                 && Validate(f, plan).attempt.selected.facts == plan.selected.value.facts
                 && Validate(f, plan).attempt.source == plan.source)
  {
    hide Candidates, BuildContext, HardFault, Qualified, CurrentOf, Filed, PlanFailover, Validate;
    var plan := PlanFailover(f, slot, preferred, rank).plan;
    var c := PlannedIsEligible(f, slot, preferred, rank);
    var svc := FindService(f.world.services, slot.service).value;
    EligibleExact(c, svc, f.world.domains, BuildContext(f, slot, None));
    assert Suits(f, plan, c);
    ValidatesIff(f, plan);
    if Validate(f, plan).Valid? {
      SameTargetSameCandidate(f.world, slot, c, Validate(f, plan).attempt.selected);
    }
  }

  /** In every reachable state: plan and execute, and the attempt completes if and only if the authority
      generation is not exhausted, the checkpoints are written, no barrier is set and everybody agrees. */
  lemma PlannedCompletesIff(m: Machine, es: seq<Event>, d: Store, slot: SlotKey, preferred: Option<u64>, rank: Rank,
                            r: Replies)
    requires NoTargets(m.fab.world) && PlanFailover(Run(m, es).fab, slot, preferred, rank).Planned?
    ensures var f := Run(m, es).fab;
            Completes(Execute(f, d, PlanFailover(f, slot, preferred, rank).plan, r)) <==>
            && f.ledger.lastAuthority < U64_LIMIT - 1
            && (d.checkpointing ==> r.intentSaved && r.fenceSaved && r.activationSaved && r.routeSaved)
            && f.barrier !in {IntentOnly, OldAdmissionFenced, ActivationAcknowledged, RouteInstalled}
            && (CurrentOf(f.ledger, slot).Some? ==> r.fenceApplied && !r.fenceUnproven)
            && r.activated && r.routed && r.verified
  {
    hide Run, Execute, Validate, CurrentOf, Filed, PlanFailover;
    EmptyIsFiled(m.fab.world, 0, 0);
    DossiersOverRuns(m, es, 0, 0);
    var f := Run(m, es).fab;
    PlanIsValid(f, slot, preferred, rank);
    var c := PlannedIsEligible(f, slot, preferred, rank);
    CompletesIff(f, d, PlanFailover(f, slot, preferred, rank).plan, r);
  }
}
