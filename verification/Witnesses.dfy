/** Runs that show where the guarantees end: each is built from calls that the facade accepts and
    attempts that get every answer they ask for. */
module Witnesses {
  import opened Types
  import opened Selection
  import opened Routing
  import opened Fabric
  import opened Operations
  import opened Durable
  import opened Cutover
  import opened Authority
  import opened Revocation
  import opened Attempts

  // ----- an attempt that gets every answer -------------------------------------------

  function Yes(now: int): Replies {
    Replies(true, true, false, true, true, true, true, true, true, now)
  }

  lemma SameSupersedes(l: Ledger, a: Attempt)
    ensures Supersedes(FenceSource(l, a), a) <==> Supersedes(l, a)
  {
    SameCurrent(l, FenceSource(l, a), a.slot);
  }

  lemma YesCompletes(f: Fabric, d: Store, a: Attempt, now: int)
    requires f.barrier.VerificationComplete? && !Supersedes(f.ledger, a)
    ensures var o := IntentPhase(f, d, a, Yes(now));
            && Completes(o) && o.fab.ledger == CommitLedger(FenceSource(f.ledger, a), a)
            && o.fab.world == f.world && o.fab.routes == Install(f.routes, RouteFor(f, a)) && o.fab.barrier == f.barrier
            && o.fab.book == f.book.(lastTransition := f.book.lastTransition[a.slot := now])
  {
    SameSupersedes(f.ledger, a);
    hide CommitLedger, Install, SnapshotOf, Decimal, Supersedes, AddFenced;
  }

  /** What the steps of attempt `t` leave alone, and what they log. */
  ghost predicate OwnEffect(m: Machine, n: Machine, t: nat) {
    && t in m.procs && n.procs.Keys == m.procs.Keys && n.procs[t].attempt == m.procs[t].attempt
    && (forall u :: u in m.procs && u != t ==> n.procs[u] == m.procs[u])
    && (m.procs[t].pc == Ended(Completed) ==> n.procs[t].pc == Ended(Completed) && n.log == m.log)
    && (n.procs[t].pc != Ended(Completed) ==> n.log == m.log)
    && (m.procs[t].pc != Ended(Completed) && n.procs[t].pc == Ended(Completed) ==>
          |n.log| == |m.log| + 1 && m.log <= n.log && n.log[|m.log|].attempt == m.procs[t].attempt)
  }

  lemma OwnStepEffect(m: Machine, t: nat, e: Event)
    requires t in m.procs && OwnStep(e, t)
    ensures OwnEffect(m, Next(m, e), t)
  {
    hide MarkStep, SaveStep, FenceStep, ActivateStep, RouteStep, InstallStep, VerifyStep, OwnEffect;
    match e {
      case Mark(_) => MarkEffect(m, t);
      case Save(_, ok) => SaveEffect(m, t, ok);
      case VerifyReply(_, verified, now) => VerifyEffect(m, t, verified, now);
      case FenceReply(_, applied, unproven) => FenceEffect(m, t, applied, unproven);
      case ActivateReply(_, yes) => ActivateEffect(m, t, yes);
      case BuildRoute(_) => RouteEffect(m, t);
      case RouteReply(_, yes) => InstallEffect(m, t, yes);
    }
  }

  lemma MarkEffect(m: Machine, t: nat)
    requires t in m.procs
    ensures OwnEffect(m, MarkStep(m, t), t)
  {
    hide MarkTxn;
  }

  lemma SaveEffect(m: Machine, t: nat, ok: bool)
    requires t in m.procs
    ensures OwnEffect(m, SaveStep(m, t, ok), t)
  {
    hide SnapshotOf;
  }

  lemma FenceEffect(m: Machine, t: nat, applied: bool, unproven: bool)
    requires t in m.procs
    ensures OwnEffect(m, FenceStep(m, t, applied, unproven), t)
  {
    hide FenceSection;
  }

  lemma ActivateEffect(m: Machine, t: nat, yes: bool)
    requires t in m.procs
    ensures OwnEffect(m, ActivateStep(m, t, yes), t)
  {
  }

  lemma RouteEffect(m: Machine, t: nat)
    requires t in m.procs
    ensures OwnEffect(m, RouteStep(m, t), t)
  {
    hide RouteFor;
  }

  lemma InstallEffect(m: Machine, t: nat, yes: bool)
    requires t in m.procs
    ensures OwnEffect(m, InstallStep(m, t, yes), t)
  {
    hide InstallSection;
  }

  lemma VerifyEffect(m: Machine, t: nat, verified: bool, now: int)
    requires t in m.procs
    ensures OwnEffect(m, VerifyStep(m, t, verified, now), t)
  {
    hide CommitSection, Extend, HasSlot, CurrentOf;
  }

  lemma {:induction false} OwnRunEffect(m: Machine, t: nat, es: seq<Event>)
    requires t in m.procs && OwnSteps(es, t)
    ensures OwnEffect(m, Run(m, es), t)
    decreases |es|
  {
    hide Next, OwnStep;
    if es != [] {
      assert OwnStep(es[0], t);
      OwnStepEffect(m, t, es[0]);
      assert OwnSteps(es[1..], t);
      OwnRunEffect(Next(m, es[0]), t, es[1..]);
    }
  }

  /** The attempt has just begun and nothing stands in its way. */
  predicate Poised(m: Machine, t: nat) {
    && At(m, t, ToMark(IntentOnly)) && m.procs[t].route.None? && m.fab.barrier.VerificationComplete?
    && !Supersedes(m.fab.ledger, m.procs[t].attempt)
  }

  lemma YesCommits(m: Machine, t: nat, now: int)
    requires Poised(m, t)
    ensures var n := Run(m, IntentScript(t, Yes(now)));
            var a := m.procs[t].attempt;
            && n.fab.ledger == CommitLedger(FenceSource(m.fab.ledger, a), a) && n.fab.world == m.fab.world
            && n.fab.routes == Install(m.fab.routes, RouteFor(m.fab, a)) && n.fab.barrier == m.fab.barrier
            && n.procs.Keys == m.procs.Keys && (forall u :: u in m.procs && u != t ==> n.procs[u] == m.procs[u])
            && |n.log| == |m.log| + 1 && m.log <= n.log && n.log[|m.log|].attempt == a
  {
    hide Run, IntentScript, IntentPhase, CommitLedger, FenceSource, RouteFor, Install, Supersedes;
    var d := Store(m.disk, m.checkpointing);
    IntentRuns(m, t, m.fab, d, m.procs[t].attempt, Yes(now));
    YesCompletes(m.fab, d, m.procs[t].attempt, now);
    IntentIsOwn(t, Yes(now));
    OwnRunEffect(m, t, IntentScript(t, Yes(now)));
  }

  lemma IntentIsOwn(t: nat, r: Replies)
    ensures OwnSteps(IntentScript(t, r), t)
  {
    hide FenceScript;
    ScriptsAreOwn(t, r);
  }

  // ----- a world with one target -----------------------------------------------------

  /** A service that asks for nothing but a fresh and ready target. */
  predicate Lenient(d: ServiceDefinition) {
    && d.compatibility.modelKey == [] && d.compatibility.runtimeAbi == [] && d.compatibility.readinessProfile.None?
    && d.recovery.continuity.StatelessRestart? && d.resources == [] && !d.domainRequirement.requireIndependence
  }

  function FactsFor(target: u64, boot: u64): Facts {
    Facts(target, 1, 0, 1, 1, 1, 1, boot, 1, [], [], 1, true, true)
  }

  function RecordFor(target: u64, boot: u64): TargetRecord {
    TargetRecord(target, Some(FactsFor(target, boot)), false, NO_STATE, [])
  }

  function Choice(target: u64, boot: u64): Candidate {
    CandidateOf(RecordFor(target, boot), FactsFor(target, boot))
  }

  /** No target is known yet, as in a coordinator that was just made or just loaded. */
  predicate Blank(w: World) {
    w.targets == [] && w.targetIndex == map[] && w.byService == map[] && w.confirmedFailed == {}
  }

  /** The one target is known, fresh and ready, and no failure is. */
  predicate Equipped(w: World, target: u64, boot: u64) {
    w.targets == [RecordFor(target, boot)] && w.targetIndex == map[target := 0] && w.byService == map[]
      && w.confirmedFailed == {}
  }

  function Equip(target: u64, boot: u64): seq<Event> {
    [Do(RegisterTarget(target)), Do(PublishFacts(FactsFor(target, boot), 0))]
  }

  lemma EquipWorld(w: World, target: u64, boot: u64)
    requires Blank(w)
    ensures var v := PerformWorld(PerformWorld(w, RegisterTarget(target)), PublishFacts(FactsFor(target, boot), 0));
            Equipped(v, target, boot) && v.services == w.services && v.domains == w.domains
  {
    var u := PerformWorld(w, RegisterTarget(target));
    assert u.targets == [TargetRecord(target, None, false, NO_STATE, [])] && u.targetIndex == map[target := 0];
  }

  lemma EquipRuns(m: Machine, target: u64, boot: u64)
    requires Blank(m.fab.world)
    ensures var n := Run(m, Equip(target, boot));
            && Equipped(n.fab.world, target, boot) && n.fab.world.services == m.fab.world.services
            && n == m.(fab := n.fab) && n.fab.ledger == m.fab.ledger && n.fab.routes == m.fab.routes
            && n.fab.barrier == m.fab.barrier
  {
    var e, g := Do(RegisterTarget(target)), Do(PublishFacts(FactsFor(target, boot), 0));
    RunTwo(m, e, g);
    EquipWorld(m.fab.world, target, boot);
    hide Run, Equipped, PerformWorld, PerformBook;
  }

  /** A promotion of the one target on a slot. */
  datatype Offer = Offer(slot: SlotKey, target: u64, boot: u64, routeGeneration: u64)

  function PlanFor(o: Offer): Plan {
    Plan(o.slot, None, Some(Choice(o.target, o.boot)), 1, o.routeGeneration)
  }

  /** The slot's service is known and asks for nothing, the boot is unfenced and the target another. */
  predicate Open(f: Fabric, o: Offer) {
    && o.boot !in f.ledger.fenced && f.ledger.lastAuthority < U64_LIMIT - 1 && f.barrier.VerificationComplete?
    && FindService(f.world.services, o.slot.service).Some?
    && Lenient(FindService(f.world.services, o.slot.service).value)
    && (CurrentOf(f.ledger, o.slot).Some? ==> CurrentOf(f.ledger, o.slot).value.target != o.target)
  }

  /** The target can be promoted on the slot. */
  predicate Admits(f: Fabric, o: Offer) {
    Equipped(f.world, o.target, o.boot) && Open(f, o)
  }

  lemma OneCandidate(w: World, o: Offer)
    requires Equipped(w, o.target, o.boot)
    requires FindService(w.services, o.slot.service).Some? && Lenient(FindService(w.services, o.slot.service).value)
    ensures Candidates(w, o.slot) == [Choice(o.target, o.boot)]
  {
    hide FindService, CandidateOf;
    assert w.targets[1..] == [];
    assert EmitMatching(w.targets, [], []) == Emit(w.targets[0]) + EmitMatching([], [], []);
  }

  lemma ChoiceIsEligible(f: Fabric, o: Offer)
    requires Admits(f, o)
    ensures Eligible(Choice(o.target, o.boot), FindService(f.world.services, o.slot.service).value, f.world.domains,
                     BuildContext(f, o.slot, None))
  {
    hide FindService, SortUnique, DomainsOfAll, CurrentOf, Failed;
    ConfirmedFailureSeenIff(f, o.slot, None, o.target);
    assert o.target !in BuildContext(f, o.slot, None).confirmedFailed;
  }

  lemma ChoiceFacts(target: u64, boot: u64)
    ensures Choice(target, boot).facts == FactsFor(target, boot)
  {
  }

  lemma AdmitsIsValid(f: Fabric, o: Offer)
    requires Admits(f, o)
    ensures var v := Validate(f, PlanFor(o));
            && v.Valid? && v.attempt.source == CurrentOf(f.ledger, o.slot) && v.attempt.slot == o.slot
            && v.attempt.next == NextAssignment(f, PlanFor(o), Choice(o.target, o.boot))
  {
    hide FindService, BuildContext, Eligible, Candidates, CurrentOf, NextAssignment, CandidateOf;
    OneCandidate(f.world, o);
    ChoiceIsEligible(f, o);
    assert Choice(o.target, o.boot).facts == FactsFor(o.target, o.boot) by { ChoiceFacts(o.target, o.boot); }
  }

  /** What an attempt on the offer carries. */
  predicate Drawn(a: Attempt, source: Option<Assignment>, o: Offer, minted: nat) {
    && a.slot == o.slot && a.source == source && KeyOf(a.next) == Key(MintedId(minted), MINTED_GENERATION)
    && a.next.slot == o.slot && a.next.target == o.target && a.next.workerBoot == o.boot
    && a.next.routeGeneration == o.routeGeneration
  }

  lemma NextIsDrawn(f: Fabric, o: Offer)
    requires f.ledger.lastAuthority < U64_LIMIT - 1
    ensures var x := NextAssignment(f, PlanFor(o), Choice(o.target, o.boot));
            && KeyOf(x) == Key(MintedId(f.ledger.minted), MINTED_GENERATION) && x.target == o.target
            && x.workerBoot == o.boot
            && x.routeGeneration == o.routeGeneration && x.slot == o.slot
            && x.authorityGeneration == f.ledger.lastAuthority + 1
  {
    ChoiceFacts(o.target, o.boot);
    hide Choice, MintedId;
  }

  lemma OwnSource(l: Ledger, a: Attempt)
    requires a.source == CurrentOf(l, a.slot)
    ensures !Supersedes(l, a)
  {
  }

  /** Attempt `t` has been added to `m`, drawn from the offer. */
  predicate Joins(m: Machine, n: Machine, t: nat, o: Offer) {
    && t in n.procs && Poised(n, t) && n == m.(fab := n.fab, procs := m.procs[t := n.procs[t]])
    && n.fab.ledger == m.fab.ledger.(minted := m.fab.ledger.minted + 1) && n.fab.world == m.fab.world
    && n.fab.routes == m.fab.routes && n.fab.barrier == m.fab.barrier
    && Drawn(n.procs[t].attempt, CurrentOf(m.fab.ledger, o.slot), o, m.fab.ledger.minted)
    && n.procs[t].attempt.next.authorityGeneration == m.fab.ledger.lastAuthority + 1
  }

  lemma BeginJoins(m: Machine, t: nat, o: Offer)
    requires t !in m.procs && Admits(m.fab, o)
    ensures Joins(m, BeginStep(m, t, PlanFor(o)), t, o)
  {
    hide Validate, NextAssignment, PlanFor, Choice, MintedId, CurrentOf, Admits;
    AdmitsIsValid(m.fab, o);
    AdmitsFacts(m.fab, o);
    NextIsDrawn(m.fab, o);
    var n := BeginStep(m, t, PlanFor(o));
    SameCurrent(m.fab.ledger, n.fab.ledger, o.slot);
    hide Supersedes;
    OwnSource(n.fab.ledger, n.procs[t].attempt);
  }

  lemma AdmitsFacts(f: Fabric, o: Offer)
    requires Admits(f, o)
    ensures f.ledger.lastAuthority < U64_LIMIT - 1 && f.barrier.VerificationComplete?
  {
    hide FindService, CurrentOf, Equipped;
  }

  lemma Joined(m: Machine, b: Machine, t: nat, o: Offer)
    requires t !in m.procs && Joins(m, b, t, o)
    ensures Poised(b, t) && b.procs.Keys == m.procs.Keys + {t}
            && (forall u :: u in m.procs ==> b.procs[u] == m.procs[u])
    ensures b.fab.ledger == m.fab.ledger.(minted := m.fab.ledger.minted + 1)
    ensures b.fab.world == m.fab.world && b.fab.barrier == m.fab.barrier
    ensures Drawn(b.procs[t].attempt, CurrentOf(m.fab.ledger, o.slot), o, m.fab.ledger.minted)
    ensures b.procs[t].attempt.next.authorityGeneration == m.fab.ledger.lastAuthority + 1
  {
    hide Drawn, CurrentOf, Supersedes;
  }

  // ----- handing out ids -------------------------------------------------------------

  /** `n` attempts begin, one after the other, on one plan. */
  function BeginsFrom(first: nat, n: nat, plan: Plan): seq<Event>
    decreases n
  {
    if n == 0 then [] else [Begin(first, plan)] + BeginsFrom(first + 1, n - 1, plan)
  }

  /** Attempt `t` waits, with the id that comes after `base + t` others. */
  predicate Waits(m: Machine, t: nat, source: Option<Assignment>, o: Offer, base: int) {
    t in m.procs && Poised(m, t) && base + t >= 0 && Drawn(m.procs[t].attempt, source, o, base + t)
  }

  lemma StillAdmits(f: Fabric, g: Fabric, o: Offer)
    requires Admits(f, o) && g.world == f.world && g.ledger == f.ledger.(minted := g.ledger.minted)
             && g.barrier == f.barrier
    ensures Admits(g, o) && CurrentOf(g.ledger, o.slot) == CurrentOf(f.ledger, o.slot)
  {
    hide FindService, Equipped;
    SameCurrent(f.ledger, g.ledger, o.slot);
  }

  lemma StillWaits(m: Machine, n: Machine, t: nat, source: Option<Assignment>, o: Offer, base: int)
    requires Waits(m, t, source, o, base) && t in n.procs && n.procs[t] == m.procs[t] && n.fab.barrier == m.fab.barrier
    requires n.fab.ledger == m.fab.ledger.(minted := n.fab.ledger.minted)
    ensures Waits(n, t, source, o, base)
  {
    hide Drawn;
    SameCurrent(m.fab.ledger, n.fab.ledger, m.procs[t].attempt.slot);
  }

  /** `n` attempts on the offer have joined `m` as `first`, `first + 1` and so on. */
  ghost predicate AllWait(m: Machine, z: Machine, first: nat, n: nat, o: Offer) {
    && z == m.(fab := z.fab, procs := z.procs) && z.fab.ledger == m.fab.ledger.(minted := m.fab.ledger.minted + n)
    && z.fab.world == m.fab.world && z.fab.routes == m.fab.routes && z.fab.barrier == m.fab.barrier
    && (forall t :: t in m.procs ==> t in z.procs && z.procs[t] == m.procs[t])
    && AllWaitFrom(z, first, n, CurrentOf(m.fab.ledger, o.slot), o, m.fab.ledger.minted - first)
  }

  ghost predicate AllWaitFrom(z: Machine, first: nat, n: nat, source: Option<Assignment>, o: Offer, base: int) {
    forall t :: first <= t < first + n ==> Waits(z, t, source, o, base)
  }

  lemma {:induction false} SpendIds(m: Machine, first: nat, n: nat, o: Offer)
    requires (forall t :: t in m.procs ==> t < first) && Admits(m.fab, o)
    ensures AllWait(m, Run(m, BeginsFrom(first, n, PlanFor(o))), first, n, o)
    decreases n
  {
    hide Run, Next, Admits, CurrentOf, PlanFor, BeginStep, AllWait, Drawn, Poised, Joins;
    if n == 0 {
      NothingMore(m);
      NobodyWaits(m, first, o);
    } else {
      var x := BeginStep(m, first, PlanFor(o));
      NextIsBegin(m, first, PlanFor(o));
      RunCons(m, Begin(first, PlanFor(o)), BeginsFrom(first + 1, n - 1, PlanFor(o)));
      BeginJoins(m, first, o);
      Joined(m, x, first, o);
      StillAdmits(m.fab, x.fab, o);
      SpendIds(x, first + 1, n - 1, o);
      JoinsThenWait(m, x, Run(x, BeginsFrom(first + 1, n - 1, PlanFor(o))), first, n, o);
    }
  }

  lemma NobodyWaits(m: Machine, first: nat, o: Offer)
    ensures AllWait(m, m, first, 0, o)
  {
    hide CurrentOf, Waits;
  }

  lemma NextIsBegin(m: Machine, t: nat, plan: Plan)
    ensures Next(m, Begin(t, plan)) == BeginStep(m, t, plan)
  {
  }

  lemma JoinsThenWait(m: Machine, x: Machine, z: Machine, first: nat, n: nat, o: Offer)
    requires n > 0 && first !in m.procs && Joins(m, x, first, o) && AllWait(x, z, first + 1, n - 1, o)
    ensures AllWait(m, z, first, n, o)
  {
    hide CurrentOf, Drawn, Poised;
    SameCurrent(m.fab.ledger, x.fab.ledger, o.slot);
    var source, base := CurrentOf(m.fab.ledger, o.slot), m.fab.ledger.minted - first;
    assert x.fab.ledger.minted - (first + 1) == base;
    StillWaits(x, z, first, source, o, base);
    forall t | first <= t < first + n ensures Waits(z, t, source, o, base) {
      if t > first {
        assert first + 1 <= t < first + 1 + (n - 1);
      }
    }
  }
}
