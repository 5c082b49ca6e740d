/** Only vetted targets are promoted: what every committed target had passed, and when. */
module Vetting {
  import opened Types
  import opened Domains
  import opened Selection
  import opened Routing
  import opened Fabric
  import opened Operations
  import opened Durable
  import opened Cutover
  import Evidence

  // ----- only vetted targets are promoted --------------------------------------------

  /** The assignment names the target, the replica, the engine and the boot of the report. */
  predicate Describes(a: Assignment, x: Facts) {
    && a.target == x.target && a.targetGeneration == x.targetGeneration
    && a.replica == x.replica && a.replicaGeneration == x.replicaGeneration
    && a.engine == x.engine && a.engineIncarnation == x.engineIncarnation
    && a.readinessProfile == x.profile && a.workerBoot == x.workerBoot
  }

  /** The attempt was validated in `f`: its target came from the snapshot of that state, passed
      every hard rule there, and is what the new assignment names. */
  ghost predicate Vetted(f: Fabric, a: Attempt) {
    var svc := FindService(f.world.services, a.slot.service);
    && svc.Some? && a.selected in Candidates(f.world, a.slot)
    && Eligible(a.selected, svc.value, f.world.domains, BuildContext(f, a.slot, None))
    && Describes(a.next, a.selected.facts)
    && a.next.slot == a.slot && a.source == CurrentOf(f.ledger, a.slot)
  }

  lemma ValidatedIsVetted(f: Fabric, plan: Plan)
    requires Validate(f, plan).Valid?
    ensures Vetted(f, Validate(f, plan).attempt) && Validate(f, plan).attempt.slot == plan.slot
  {
    hide Candidates, BuildContext, Eligible, CurrentOf, UsesCuda;
  }

  ghost predicate AllVetted(m: Machine) {
    && (forall t :: t in m.procs ==> Vetted(m.procs[t].basis, m.procs[t].attempt))
    && (forall i :: 0 <= i < |m.log| ==> Vetted(m.log[i].basis, m.log[i].attempt))
  }

  ghost predicate StateOf(m: Machine, es: seq<Event>, f: Fabric) {
    exists n :: 0 <= n <= |es| && Run(m, es[..n]).fab == f
  }

  /** Every basis is a state that the run went through. */
  ghost predicate AllRooted(m: Machine, es: seq<Event>, n: Machine) {
    && (forall t :: t in n.procs ==> StateOf(m, es, n.procs[t].basis))
    && (forall i :: 0 <= i < |n.log| ==> StateOf(m, es, n.log[i].basis))
  }

  predicate TakenFrom(m: Machine, c: Commit, t: nat) {
    t in m.procs && c.basis == m.procs[t].basis && c.attempt == m.procs[t].attempt
  }

  /** What one step adds to the attempts and commits on record. */
  ghost predicate Records(m: Machine, n: Machine) {
    && (forall t :: t in n.procs ==>
          (t in m.procs && n.procs[t].basis == m.procs[t].basis && n.procs[t].attempt == m.procs[t].attempt) ||
          (n.procs[t].basis == m.fab && Vetted(m.fab, n.procs[t].attempt)))
    && (forall i :: 0 <= i < |n.log| ==>
          (i < |m.log| && n.log[i] == m.log[i]) ||
          exists t :: TakenFrom(m, n.log[i], t))
  }

  lemma BeginRecords(m: Machine, t: nat, plan: Plan)
    ensures Records(m, BeginStep(m, t, plan))
  {
    hide Validate, BeginSection, Vetted;
    if t !in m.procs && Validate(m.fab, plan).Valid? {
      ValidatedIsVetted(m.fab, plan);
    }
  }

  lemma MoveRecords(m: Machine, n: Machine, t: nat, pc: Pc, c: Commit)
    requires t in m.procs && n.procs == m.procs[t := m.procs[t].(pc := pc)]
    requires n.log == m.log || (n.log == m.log + [c] && TakenFrom(m, c, t))
    ensures Records(m, n)
  {
    hide Vetted;
    if n.log != m.log {
      assert TakenFrom(m, n.log[|m.log|], t);
    }
  }

  lemma StillRecords(m: Machine)
    ensures Records(m, m)
  {
    hide Vetted;
  }

  lemma VerifyRecords(m: Machine, t: nat, verified: bool, now: int)
    ensures Records(m, VerifyStep(m, t, verified, now))
  {
    hide CommitSection, Records, Extend, CurrentOf;
    if At(m, t, ToVerify) {
      var n := VerifyStep(m, t, verified, now);
      MoveRecords(m, n, t, n.procs[t].pc, CommitOf(m, t));
    } else {
      StillRecords(m);
    }
  }

  lemma InitialRecords(m: Machine, op: Op)
    ensures Records(m, DoStep(m, op))
  {
    hide Perform, Vetted, InitialAllowed;
  }

  lemma StepRecords(m: Machine, e: Event)
    ensures Records(m, Next(m, e))
  {
    hide BeginStep, MarkStep, SaveStep, FenceStep, ActivateStep, RouteStep, InstallStep, VerifyStep, DoStep, SnapshotOf,
      Vetted;
    match e {
      case Begin(t, plan) => BeginRecords(m, t, plan);
      case VerifyReply(t, verified, now) => VerifyRecords(m, t, verified, now);
      case Do(op) => InitialRecords(m, op);
      case _ => QuietSteps(m, e);
    }
  }

  lemma {:induction false} RunSnoc(m: Machine, es: seq<Event>, e: Event)
    ensures Run(m, es + [e]) == Next(Run(m, es), e)
    decreases |es|
  {
    hide Next;
    if es == [] {
      assert es + [e] == [e] && [e][1..] == [];
      assert Run(Next(m, e), []) == Next(m, e);
    } else {
      assert (es + [e])[0] == es[0] && (es + [e])[1..] == es[1..] + [e];
      RunSnoc(Next(m, es[0]), es[1..], e);
    }
  }

  lemma RootedSnoc(m: Machine, es: seq<Event>, e: Event, f: Fabric)
    requires StateOf(m, es, f)
    ensures StateOf(m, es + [e], f)
  {
    hide Run;
    var n :| 0 <= n <= |es| && Run(m, es[..n]).fab == f;
    assert (es + [e])[..n] == es[..n];
  }

  lemma RootedHere(m: Machine, es: seq<Event>, e: Event)
    ensures StateOf(m, es + [e], Run(m, es).fab)
  {
    hide Run;
    assert (es + [e])[..|es|] == es;
  }

  lemma RecordsVetted(p: Machine, n: Machine)
    requires AllVetted(p) && Records(p, n)
    ensures AllVetted(n)
  {
    hide Vetted;
    forall i | 0 <= i < |n.log| ensures Vetted(n.log[i].basis, n.log[i].attempt) {
      if !(i < |p.log| && n.log[i] == p.log[i]) {
        var t :| TakenFrom(p, n.log[i], t);
      }
    }
  }

  lemma RecordsRooted(m: Machine, init: seq<Event>, e: Event, p: Machine, n: Machine)
    requires AllRooted(m, init, p) && Records(p, n) && Run(m, init).fab == p.fab
    ensures AllRooted(m, init + [e], n)
  {
    hide Vetted, StateOf, Run;
    RootedHere(m, init, e);
    forall t | t in n.procs ensures StateOf(m, init + [e], n.procs[t].basis) {
      if t in p.procs && n.procs[t].basis == p.procs[t].basis {
        RootedSnoc(m, init, e, p.procs[t].basis);
      }
    }
    forall i | 0 <= i < |n.log| ensures StateOf(m, init + [e], n.log[i].basis) {
      if i < |p.log| && n.log[i] == p.log[i] {
        RootedSnoc(m, init, e, p.log[i].basis);
      } else {
        var t :| TakenFrom(p, n.log[i], t);
        RootedSnoc(m, init, e, p.procs[t].basis);
      }
    }
  }

  lemma {:induction false} RunsAreVetted(m: Machine, es: seq<Event>)
    requires m.procs == map[] && m.log == []
    ensures AllVetted(Run(m, es)) && AllRooted(m, es, Run(m, es))
    decreases |es|
  {
    hide Next, Vetted, StateOf;
    if es != [] {
      hide AllVetted, AllRooted, Records, Run;
      var last := |es| - 1;
      var init, e := es[..last], es[last];
      assert es == init + [e];
      RunsAreVetted(m, init);
      RunSnoc(m, init, e);
      StepRecords(Run(m, init), e);
      RecordsVetted(Run(m, init), Run(m, es));
      RecordsRooted(m, init, e, Run(m, init), Run(m, es));
    }
  }

  /** Bound to the slot's service through the target index. */
  predicate BoundTo(f: Fabric, slot: SlotKey, t: u64) {
    slot.service in f.world.byService && t in BoundTargets(f.world.targets, f.world.byService[slot.service])
  }

  /** Every committed target had passed, in a state that the run went through and in which the
      attempt captured its source, all hard rules: not the current target, boot unfenced, fresh and
      ready, compatible, with the state, resources and independence asked for; and, if it was bound
      to the service, it had no confirmed failure there. */
  lemma CommittedWasVetted(m: Machine, es: seq<Event>, i: nat) returns (n: nat)
    requires m.procs == map[] && m.log == [] && i < |Run(m, es).log|
    ensures n <= |es| && Run(m, es[..n]).fab == Run(m, es).log[i].basis
    ensures var f := Run(m, es[..n]).fab;
            var a := Run(m, es).log[i].attempt;
            var svc := FindService(f.world.services, a.slot.service);
            && svc.Some? && a.selected in Candidates(f.world, a.slot) && a.source == CurrentOf(f.ledger, a.slot)
            && Describes(a.next, a.selected.facts)
            && Qualified(a.selected, svc.value, f.world.domains, BuildContext(f, a.slot, None))
            && a.next.workerBoot !in f.ledger.fenced && a.selected.facts.ready && a.selected.facts.evidenceFresh
            && (a.source.Some? && a.next.target != 0 ==> a.next.target != a.source.value.target)
            && (BoundTo(f, a.slot, a.next.target) ==> a.next.target !in f.world.confirmedFailed)
  {
    hide Run, Candidates, CurrentOf, BoundTargets, SortUnique, Failed, DomainsOfAll, Supplies, Overlaps, InDomain,
      Compatible, StateComplete;
    RunsAreVetted(m, es);
    var c := Run(m, es).log[i];
    assert StateOf(m, es, c.basis) && Vetted(c.basis, c.attempt);
    n :| 0 <= n <= |es| && Run(m, es[..n]).fab == c.basis;
    var f := c.basis;
    var svc := FindService(f.world.services, c.attempt.slot.service);
    EligibleExact(c.attempt.selected, svc.value, f.world.domains, BuildContext(f, c.attempt.slot, None));
    ConfirmedFailureSeenIff(f, c.attempt.slot, None, c.attempt.next.target);
  }

  // ----- a failed target is not promoted ---------------------------------------------

  /** Bound to the service, with a confirmed failure that no readiness has answered. */
  predicate Down(w: World, service: u64, t: u64) {
    && t in w.confirmedFailed
    && service in w.byService && t in BoundTargets(w.targets, w.byService[service])
  }

  /** The target reports ready again. */
  predicate Revives(e: Event, t: u64) {
    e.Do? && e.op.PublishFacts? && e.op.facts.target == t && e.op.facts.ready
  }

  /** Bindings only grow: positions are appended and records keep their identity. */
  ghost predicate BindingGrows(w: World, v: World, service: u64) {
    && |w.targets| <= |v.targets| && (forall i :: 0 <= i < |w.targets| ==> v.targets[i].id == w.targets[i].id)
    && (service in w.byService ==> service in v.byService && w.byService[service] <= v.byService[service])
  }

  lemma BindingKeeps(w: World, v: World, service: u64, t: u64)
    requires BindingGrows(w, v, service) && service in w.byService && t in BoundTargets(w.targets, w.byService[service])
    ensures t in BoundTargets(v.targets, v.byService[service])
  {
    var at, bt := w.byService[service], v.byService[service];
    BoundTargetsExact(w.targets, at, t);
    var k :| 0 <= k < |at| && at[k] < |w.targets| && w.targets[at[k]].id == t;
    assert bt[k] == at[k];
    BoundTargetsExact(v.targets, bt, t);
  }

  lemma CallStaysDown(w: World, op: Op, service: u64, t: u64)
    requires Down(w, service, t) && !Revives(Do(op), t)
    ensures Down(PerformWorld(w, op), service, t)
  {
    hide BoundTargets, FindService, Evidence.Publish, Evidence.Clear, Declare, SetMember;
    var v := PerformWorld(w, op);
    assert BindingGrows(w, v, service);
    BindingKeeps(w, v, service, t);
  }

  /** No section of an attempt touches what the coordinator knows about targets. */
  lemma SectionsKeepWorld(m: Machine, e: Event)
    requires !e.Do?
    ensures Next(m, e).fab.world == m.fab.world
  {
    hide SnapshotOf, RouteFor, Install, CommitLedger, Supersedes, AddFenced, Validate;
  }

  lemma {:induction false} StaysDown(m: Machine, es: seq<Event>, service: u64, t: u64)
    requires Down(m.fab.world, service, t) && forall i :: 0 <= i < |es| ==> !Revives(es[i], t)
    ensures Down(Run(m, es).fab.world, service, t)
    decreases |es|
  {
    if es != [] {
      var n := Next(m, es[0]);
      assert Down(n.fab.world, service, t) by {
        hide Down, Next, Revives;
        StepStaysDown(m, es[0], service, t);
      }
      hide Down, Next;
      StaysDown(n, es[1..], service, t);
    }
  }

  lemma StepStaysDown(m: Machine, e: Event, service: u64, t: u64)
    requires Down(m.fab.world, service, t) && !Revives(e, t)
    ensures Down(Next(m, e).fab.world, service, t)
  {
    hide Down;
    if e.Do? {
      hide PerformWorld, PerformRoutes, PerformBook, PerformLedger;
      CallStaysDown(m.fab.world, e.op, service, t);
    } else {
      hide Next;
      SectionsKeepWorld(m, e);
    }
  }

  lemma FailureTakesDown(m: Machine, e: FailureEvent, slot: SlotKey)
    requires (e.status.Confirmed? || e.status.UnknownStatus?) && e.target.Some? && BoundTo(m.fab, slot, e.target.value)
    ensures Down(Next(m, Do(PublishFailure(e))).fab.world, slot.service, e.target.value)
  {
    hide BoundTargets, Evidence.Publish, PerformRoutes, PerformBook, PerformLedger;
  }

  /** A bound target whose failure was reported is not promoted by any attempt that is validated
      before the target reports ready again, whatever else happens in between. */
  lemma FailedTargetIsNotPromoted(m: Machine, e: FailureEvent, es: seq<Event>, plan: Plan)
    requires (e.status.Confirmed? || e.status.UnknownStatus?) && e.target.Some?
             && BoundTo(m.fab, plan.slot, e.target.value)
    requires forall i :: 0 <= i < |es| ==> !Revives(es[i], e.target.value)
    requires Validate(Run(Next(m, Do(PublishFailure(e))), es).fab, plan).Valid?
    ensures Validate(Run(Next(m, Do(PublishFailure(e))), es).fab, plan).attempt.next.target != e.target.value
  {
    hide Run, Next, Validate, Down, Revives;
    var t := e.target.value;
    var b := Next(m, Do(PublishFailure(e)));
    FailureTakesDown(m, e, plan.slot);
    StaysDown(b, es, plan.slot.service, t);
    DownIsNotValidated(Run(b, es).fab, plan, t);
  }

  lemma DownIsNotValidated(f: Fabric, plan: Plan, t: u64)
    requires Down(f.world, plan.slot.service, t) && Validate(f, plan).Valid?
    ensures Validate(f, plan).attempt.next.target != t
  {
    hide Candidates, CurrentOf, BoundTargets, BuildContext, FindService, Validate, Overlaps, InDomain, Supplies;
    ValidatedIsVetted(f, plan);
    var a := Validate(f, plan).attempt;
    var svc := FindService(f.world.services, plan.slot.service);
    EligibleExact(a.selected, svc.value, f.world.domains, BuildContext(f, plan.slot, None));
    ConfirmedFailureSeenIff(f, plan.slot, None, t);
  }

  /** Under the independence rule a target that passes validation lies in or under the domain of a
      target with a visible confirmed failure if and only if it is declared in a domain under it: the
      rule keeps it out of the domain itself, and of nothing below. */
  lemma ValidatedUnderFailedDomainIff(f: Fabric, plan: Plan, failed: u64, d: u64)
    requires Validate(f, plan).Valid? && FindService(f.world.services, plan.slot.service).Some?
    requires FindService(f.world.services, plan.slot.service).value.domainRequirement.requireIndependence
    requires failed in BuildContext(f, plan.slot, None).confirmedFailed
             && MemberAt(f.world.domains.memberships, failed, d)
    ensures var t := Validate(f, plan).attempt.next.target;
            && !MemberAt(f.world.domains.memberships, t, d)
            && (Inside(f.world.domains, t, d) <==> MemberUnder(f.world.domains, t, d))
  {
    hide Candidates, BuildContext, FindService, Validate, Overlaps, Supplies, Inside, MemberUnder, CurrentOf;
    ValidatedIsVetted(f, plan);
    var a := Validate(f, plan).attempt;
    var svc := FindService(f.world.services, plan.slot.service).value;
    FailedDomainsExact(f, plan.slot, None, d);
    EligibleExact(a.selected, svc, f.world.domains, BuildContext(f, plan.slot, None));
    EligibleUnderFailedDomainIff(a.selected, svc, f.world.domains, BuildContext(f, plan.slot, None), d);
  }
}
