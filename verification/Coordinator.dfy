/** The coordinator object: its fields, and the methods that update them step by step. Each method
    is proved to do what the state functions of the other modules say. */
module Coordinator {
  import opened Types
  import opened Domains
  import opened Selection
  import opened Routing
  import opened Fabric
  import opened Operations
  import opened Durable
  import opened Attempts
  import opened Failback
  import Evidence
  import Cutover

  // ----- loops over the state --------------------------------------------------------

  method EmitBound(ts: seq<TargetRecord>, at: seq<nat>) returns (cs: seq<Candidate>)
    ensures cs == EmitAt(ts, at)
  {
    hide Emit;
    cs := [];
    for i := 0 to |at|
      invariant cs + EmitAt(ts, at[i..]) == EmitAt(ts, at)
    {
      assert at[i..][1..] == at[i + 1..];
      var more := if at[i] < |ts| then Emit(ts[at[i]]) else [];
      assert cs + (more + EmitAt(ts, at[i + 1..])) == (cs + more) + EmitAt(ts, at[i + 1..]);
      cs := cs + more;
    }
  }

  method EmitCompatible(ts: seq<TargetRecord>, model: Bytes, abi: Bytes) returns (cs: seq<Candidate>)
    ensures cs == EmitMatching(ts, model, abi)
  {
    hide Emit;
    cs := [];
    for i := 0 to |ts|
      invariant cs + EmitMatching(ts[i..], model, abi) == EmitMatching(ts, model, abi)
    {
      assert ts[i..][1..] == ts[i + 1..];
      var t := ts[i];
      if t.facts.None? || (model != [] && t.facts.value.modelKey != model)
        || (abi != [] && t.facts.value.runtimeAbi != abi) {
        assert [] + EmitMatching(ts[i + 1..], model, abi) == EmitMatching(ts[i + 1..], model, abi);
        continue;
      }
      assert cs + (Emit(t) + EmitMatching(ts[i + 1..], model, abi))
             == (cs + Emit(t)) + EmitMatching(ts[i + 1..], model, abi);
      cs := cs + Emit(t);
    }
  }

  /** The candidate snapshot of a slot. */
  method SnapshotCandidates(w: World, slot: SlotKey) returns (cs: seq<Candidate>)
    ensures cs == Candidates(w, slot)
  {
    hide EmitAt, EmitMatching, FindService;
    var svc := FindService(w.services, slot.service);
    if slot.service in w.byService && w.byService[slot.service] != [] {
      cs := EmitBound(w.targets, w.byService[slot.service]);
    } else if svc.Some? {
      cs := EmitCompatible(w.targets, svc.value.compatibility.modelKey, svc.value.compatibility.runtimeAbi);
    } else {
      cs := EmitCompatible(w.targets, [], []);
    }
    if |cs| > MAX_CANDIDATES {
      cs := cs[..MAX_CANDIDATES];
    }
  }

  method BoundIds(ts: seq<TargetRecord>, at: seq<nat>) returns (ids: seq<u64>)
    ensures ids == BoundTargets(ts, at)
  {
    ids := [];
    for i := 0 to |at|
      invariant ids + BoundTargets(ts, at[i..]) == BoundTargets(ts, at)
    {
      assert at[i..][1..] == at[i + 1..];
      var more := if at[i] < |ts| then [ts[at[i]].id] else [];
      assert ids + (more + BoundTargets(ts, at[i + 1..])) == (ids + more) + BoundTargets(ts, at[i + 1..]);
      ids := ids + more;
    }
  }

  /** The confirmed failures among some targets. */
  method ConfirmedAmong(w: World, ts: seq<u64>) returns (confirmed: seq<u64>)
    ensures confirmed == Failed(w, ts)
  {
    confirmed := [];
    for i := 0 to |ts|
      invariant confirmed + Failed(w, ts[i..]) == Failed(w, ts)
    {
      assert ts[i..][1..] == ts[i + 1..];
      var more := if ts[i] in w.confirmedFailed then [ts[i]] else [];
      assert confirmed + (more + Failed(w, ts[i + 1..])) == (confirmed + more) + Failed(w, ts[i + 1..]);
      confirmed := confirmed + more;
    }
  }

  method FailedDomains(r: Registry, confirmed: seq<u64>) returns (ds: seq<u64>)
    ensures ds == DomainsOfAll(r.memberships, confirmed)
  {
    ds := [];
    for i := 0 to |confirmed|
      invariant ds + DomainsOfAll(r.memberships, confirmed[i..]) == DomainsOfAll(r.memberships, confirmed)
    {
      assert confirmed[i..][1..] == confirmed[i + 1..];
      var more := DomainsOf(r.memberships, confirmed[i]);
      assert ds + (more + DomainsOfAll(r.memberships, confirmed[i + 1..]))
             == (ds + more) + DomainsOfAll(r.memberships, confirmed[i + 1..]);
      ds := ds + more;
    }
  }

  method ComputeContext(f: Fabric, slot: SlotKey, preferred: Option<u64>) returns (ctx: Context)
    ensures ctx == BuildContext(f, slot, preferred)
  {
    hide CurrentOf, SortUnique, Failed, BoundTargets, DomainsOfAll;
    var cur := CurrentOf(f.ledger, slot);
    var failedTarget := if cur.Some? then cur.value.target else 0;
    var relevant := [];
    if slot.service in f.world.byService {
      relevant := BoundIds(f.world.targets, f.world.byService[slot.service]);
    }
    relevant := relevant + (if failedTarget != 0 then [failedTarget] else []);
    var confirmed := ConfirmedAmong(f.world, relevant);
    var ds := FailedDomains(f.world.domains, confirmed);
    ctx := Context(failedTarget, SortUnique(confirmed), f.ledger.fenced, SortUnique(ds), preferred, true);
  }

  method ComputePlan(f: Fabric, slot: SlotKey, preferred: Option<u64>, rank: Rank) returns (p: PlanOutcome)
    ensures p == PlanFailover(f, slot, preferred, rank)
  {
    hide Candidates, BuildContext, Select, CurrentOf, CurrentRoute, FindService;
    var svc := FindService(f.world.services, slot.service);
    if svc.None? {
      return NoPlan;
    }
    var cs := SnapshotCandidates(f.world, slot);
    var ctx := ComputeContext(f, slot, preferred);
    var r := RunSelection(cs, svc.value, f.world.domains, ctx, rank);
    if r.selected.None? {
      return NoPlan;
    }
    var route := CurrentRoute(f.routes, slot);
    if route.None? {
      return Planned(Plan(slot, CurrentOf(f.ledger, slot), r.selected, FIRST_REQUESTED_ROUTE, 2));
    }
    if route.value.generation == U64_LIMIT - 1 {
      return Exhausted;
    }
    return Planned(Plan(slot, CurrentOf(f.ledger, slot), r.selected, route.value.route, route.value.generation + 1));
  }

  /** Revalidates a plan against a new snapshot. */
  method Revalidate(f: Fabric, plan: Plan) returns (v: Verdict)
    ensures v == Validate(f, plan)
  {
    hide Candidates, BuildContext, HardFault, CurrentOf, FindService, UsesCuda;
    var svc := FindService(f.world.services, plan.slot.service);
    if svc.None? || plan.selected.None? {
      return Invalid;
    }
    var old' := CurrentOf(f.ledger, plan.slot);
    if plan.source.Some?
      && (old'.None? || old'.value.id != plan.source.value.id
          || old'.value.generation != plan.source.value.generation) {
      return Invalid;
    }
    var cs := SnapshotCandidates(f.world, plan.slot);
    var ctx := ComputeContext(f, plan.slot, None);
    var sel := plan.selected.value.facts;
    for i := 0 to |cs|
      invariant FirstMatch(cs, sel.target, sel.workerBoot) == FirstMatch(cs[i..], sel.target, sel.workerBoot)
    {
      assert cs[i..][1..] == cs[i + 1..];
      if cs[i].facts.target == sel.target && cs[i].facts.workerBoot == sel.workerBoot {
        var ok, _ := JudgeCandidate(cs[i], svc.value, f.world.domains, ctx);
        if !ok {
          return Invalid;
        }
        if f.ledger.lastAuthority == U64_LIMIT - 1 {
          return Threw(f.ledger.minted + 1);
        }
        return Valid(Attempt(plan.slot, old', NextAssignment(f, plan, cs[i]), cs[i]));
      }
    }
    return Invalid;
  }

  // ----- saving and loading ----------------------------------------------------------

  method CollectAssignments(slots: seq<SlotState>) returns (out: seq<Assignment>)
    ensures out == AssignmentsOf(slots)
  {
    out := [];
    for i := 0 to |slots|
      invariant out + AssignmentsOf(slots[i..]) == AssignmentsOf(slots)
    {
      assert slots[i..][1..] == slots[i + 1..];
      ghost var rest := AssignmentsOf(slots[i + 1..]);
      assert out + (SlotAssignments(slots[i]) + rest) == (out + SlotAssignments(slots[i])) + rest;
      assert out + SlotAssignments(slots[i]) ==
             (out + (if slots[i].current.Some? then [slots[i].current.value] else [])) + slots[i].history;
      if slots[i].current.Some? {
        out := out + [slots[i].current.value];
      }
      out := out + slots[i].history;
    }
  }

  /** Rebuilds the slots from the recorded assignments, one by one. */
  method RebuildSlots(s: Snapshot) returns (l: Ledger)
    ensures l == LoadAssignments(Ledger([], map[], s.fencedBoots, s.epoch, s.lastAuthorityGen, 0), s.assignments)
  {
    hide HasSlot;
    var slots, index: map<SlotKey, nat> := [], map[];
    ghost var start := Ledger([], map[], s.fencedBoots, s.epoch, s.lastAuthorityGen, 0);
    for i := 0 to |s.assignments|
      invariant IndexExact(start.(slots := slots, index := index))
      invariant LoadAssignments(start.(slots := slots, index := index), s.assignments[i..])
                == LoadAssignments(start, s.assignments)
    {
      var a := s.assignments[i];
      ghost var before := start.(slots := slots, index := index);
      assert s.assignments[i..][1..] == s.assignments[i + 1..];
      LoadAssignmentFrame(before, a);
      IndexedIsFound(before, a.slot);
      if a.slot !in index {
        index := index[a.slot := |slots|];
        slots := slots + [SlotState(a.slot, None, [])];
      }
      var at := index[a.slot];
      if a.state.Active? {
        slots := slots[at := slots[at].(current := Some(a))];
      } else {
        slots := slots[at := slots[at].(history := slots[at].history + [a])];
      }
      assert start.(slots := slots, index := index) == LoadAssignment(before, a);
    }
    l := Ledger(slots, index, s.fencedBoots, s.epoch, s.lastAuthorityGen, 0);
  }

  lemma IndexedIsFound(l: Ledger, k: SlotKey)
    requires IndexExact(l)
    ensures k in l.index <==> HasSlot(l, k)
  {
  }

  /** Demotes the active assignments that an interrupted cutover leaves in doubt. */
  method Reconcile(slots: seq<SlotState>, fenced: seq<u64>, t: Txn) returns (out: seq<SlotState>)
    ensures out == ReconcileAll(slots, fenced, t)
  {
    out := slots;
    if t.has && MilestoneRank(t.milestone) < MilestoneRank(VerificationComplete) {
      for i := 0 to |out|
        invariant |out| == |slots|
        invariant forall k :: 0 <= k < |slots| ==> out[k] == if k < i then Reconciled(slots[k], fenced, t) else slots[k]
      {
        var st := out[i];
        if st.current.Some? && st.current.value.state.Active? {
          if st.current.value.workerBoot in fenced || t.pending.Some? {
            out := out[i := st.(current := Some(st.current.value.(state := NeedsRevalidation)))];
          }
        }
      }
    }
    assert out == ReconcileAll(slots, fenced, t);
  }

  method RebuildDomains(s: Snapshot) returns (r: Registry)
    ensures r == Registry(DeclareAll([], s.domains), SetMembers([], s.memberships))
  {
    hide Declare, SetMember;
    var ds, ms := [], [];
    for i := 0 to |s.domains|
      invariant DeclareAll(ds, s.domains[i..]) == DeclareAll([], s.domains)
    {
      assert s.domains[i..][1..] == s.domains[i + 1..];
      if s.domains[i].id != 0 {
        ds := Declare(ds, s.domains[i]);
      }
    }
    for i := 0 to |s.memberships|
      invariant SetMembers(ms, s.memberships[i..]) == SetMembers([], s.memberships)
    {
      assert s.memberships[i..][1..] == s.memberships[i + 1..];
      ms := SetMember(ms, s.memberships[i]);
    }
    r := Registry(ds, ms);
  }

  method RebuildEvidence(s: Snapshot) returns (e: Evidence.Store)
    ensures e == Evidence.PublishAll(Evidence.EMPTY_STORE, s.evidence)
  {
    hide Evidence.Publish;
    e := Evidence.EMPTY_STORE;
    for i := 0 to |s.evidence|
      invariant Evidence.PublishAll(e, s.evidence[i..]) == Evidence.PublishAll(Evidence.EMPTY_STORE, s.evidence)
    {
      assert s.evidence[i..][1..] == s.evidence[i + 1..];
      e := Evidence.Publish(e, s.evidence[i]);
    }
  }

  method RebuildRoutes(s: Snapshot) returns (rs: Routes)
    ensures rs == MarkRevalidation(InstallAll([], s.routes))
  {
    hide Install;
    rs := [];
    for i := 0 to |s.routes|
      invariant InstallAll(rs, s.routes[i..]) == InstallAll([], s.routes)
    {
      assert s.routes[i..][1..] == s.routes[i + 1..];
      rs := Install(rs, s.routes[i]);
    }
    rs := MarkRevalidation(rs);
  }

  // ----- what a call touches ---------------------------------------------------------

  lemma InitialTouches(f: Fabric, a: Assignment, now: int)
    ensures Perform(f, SetInitial(a, now)) ==
            if InitialAllowed(f.ledger, a)
            then f.(ledger := SetInitialLedger(f.ledger, a), book := PerformBook(f, SetInitial(a, now))) else f
  {
    hide SetInitialLedger;
  }

  lemma FactsTouch(f: Fabric, x: Facts, now: int)
    ensures Perform(f, PublishFacts(x, now)) ==
            if FactsAccepted(f.world, x)
            then f.(world := PublishFactsWorld(f.world, x), book := PerformBook(f, PublishFacts(x, now))) else f
  {
    hide PublishFactsWorld, FactsAccepted;
  }

  lemma FailureTouches(f: Fabric, e: FailureEvent)
    ensures Perform(f, PublishFailure(e)) == f.(world := PublishFailureWorld(f.world, e))
  {
    hide PublishFailureWorld;
  }

  // ----- the object ------------------------------------------------------------------

  class FailoverFabric {
    var ledger: Ledger
    var world: World
    var routes: Routes
    var txn: Txn
    var barrier: Milestone
    var attemptStates: seq<AttemptState>
    var book: Book
    var disk: Option<Snapshot>
    var checkpointing: bool

    function State(): Fabric
      reads this
    {
      Fabric(ledger, world, routes, txn, barrier, attemptStates, book)
    }

    function StoreState(): Store
      reads this
    {
      Store(disk, checkpointing)
    }

    /** Both indexes point into their vectors. */
    ghost predicate Valid()
      reads this
    {
      IndexExact(ledger) && TargetsOk(world)
    }

    constructor ()
      ensures Valid() && State() == FRESH && StoreState() == Store(None, false)
    {
      ledger, world, routes, book := EMPTY_LEDGER, EMPTY_WORLD, [], EMPTY_BOOK;
      txn, barrier, attemptStates := Txn(false, IntentOnly, None, None, None), VerificationComplete, [];
      disk, checkpointing := None, false;
    }

    // ----- calls ---------------------------------------------------------------------

    method SetInitialAssignment(a: Assignment, now: int) returns (accepted: bool)
      requires Valid()
      modifies this`ledger, this`book
      ensures Valid() && accepted == InitialAllowed(old(ledger), a)
      ensures State() == Perform(old(State()), SetInitial(a, now))
    {
      hide TargetsOk, Perform;
      InitialTouches(State(), a, now);
      Cutover.InitialCurrent(ledger, a, a.slot);
      if a.slot.service == 0 || a.slot.slot == 0 {
        return false;
      }
      var slots, index := ledger.slots, ledger.index;
      if a.slot in index && slots[index[a.slot]].current.Some? {
        return false;
      }
      if a.slot !in index {
        index := index[a.slot := |slots|];
        slots := slots + [SlotState(a.slot, None, [])];
      }
      var stored := a.(state := Active, provisory := false);
      if stored.authorityGeneration == 0 {
        stored := stored.(authorityGeneration := ledger.lastAuthority);
      }
      book := book.(preferred := book.preferred[a.slot := a.target],
                    lastTransition := book.lastTransition[a.slot := now], attempts := book.attempts[a.slot := 0]);
      var at := index[a.slot];
      slots := slots[at := slots[at].(current := Some(stored))];
      ledger := ledger.(slots := slots, index := index);
      return true;
    }

    method CreateServiceDefinition(def: ServiceDefinition) returns (accepted: bool)
      requires Valid()
      modifies this`world
      ensures Valid() && accepted == FindService(old(world.services), def.service).None?
      ensures State() == Perform(old(State()), CreateService(def))
    {
      hide IndexExact;
      var services := world.services;
      for i := 0 to |services|
        invariant world == old(world)
        invariant forall k :: 0 <= k < i ==> services[k].service != def.service
      {
        if services[i].service == def.service {
          return false;
        }
      }
      world := world.(services := services + [def]);
      return true;
    }

    method Register(target: u64)
      requires Valid()
      modifies this`world
      ensures Valid() && State() == Perform(old(State()), RegisterTarget(target))
    {
      hide IndexExact;
      if target !in world.targetIndex {
        world := world.(targetIndex := world.targetIndex[target := |world.targets|],
                        targets := world.targets + [TargetRecord(target, None, false, NO_STATE, [])]);
      }
    }

    method PublishCandidateFacts(facts: Facts, now: int) returns (known: bool)
      requires Valid()
      modifies this`world, this`book
      ensures Valid() && known == (facts.target in old(world.targetIndex))
      ensures State() == Perform(old(State()), PublishFacts(facts, now))
    {
      hide IndexExact, Perform;
      FactsTouch(State(), facts, now);
      if facts.target !in world.targetIndex {
        return false;
      }
      var at := world.targetIndex[facts.target];
      var record := world.targets[at];
      if record.facts.None? || facts.readinessGeneration >= record.facts.value.readinessGeneration {
        var bound, failed := world.byService, world.confirmedFailed;
        if facts.service != 0 && !(record.facts.Some? && record.facts.value.service == facts.service) {
          bound := bound[facts.service := (if facts.service in bound then bound[facts.service] else []) + [at]];
        }
        if facts.ready {
          failed := failed - {facts.target};
          book := book.(readySince := book.readySince[facts.target := now]);
        }
        world := world.(byService := bound, confirmedFailed := failed,
                        targets := world.targets[at := record.(facts := Some(facts.(evidenceFresh := true)))]);
      }
      return true;
    }

    method PublishFailureEvent(e: FailureEvent)
      requires Valid()
      modifies this`world
      ensures Valid() && State() == Perform(old(State()), PublishFailure(e))
    {
      hide IndexExact, Evidence.Publish, Perform;
      FailureTouches(State(), e);
      var ev := e;
      if ev.received.seqNo == 0 {
        world := world.(receiptSeq := (world.receiptSeq + 1) % U64_LIMIT);
        ev := ev.(received := ev.received.(seqNo := world.receiptSeq));
      }
      if (ev.status.Confirmed? || ev.status.UnknownStatus?) && ev.target.Some? {
        world := world.(confirmedFailed := world.confirmedFailed + {ev.target.value});
      }
      world := world.(evidence := Evidence.Publish(world.evidence, ev));
    }

    // ----- the locked sections -------------------------------------------------------

    method BeginAttempt(plan: Plan) returns (v: Verdict)
      requires Valid()
      modifies this`ledger, this`attemptStates
      ensures Valid() && v == Validate(old(State()), plan) && State() == BeginSection(old(State()), plan)
    {
      hide Validate, TargetsOk;
      v := Revalidate(State(), plan);
      match v {
        case Invalid => attemptStates := attemptStates + [FailedAttempt];
        case Threw(spent) => ledger := ledger.(minted := spent);
        case Valid(_) =>
          ledger := ledger.(minted := ledger.minted + 1);
          attemptStates := attemptStates + [Evaluating];
      }
    }

    /** Records the milestone and saves it if a path is configured; `ok` is whether the file could be
        written. */
    method Checkpoint(m: Milestone, a: Attempt, route: Option<RouteEntry>, ok: bool) returns (raised: bool, stop: bool)
      requires Valid()
      modifies this`txn, this`disk
      ensures Valid() && State() == MarkTxn(old(State()), m, a, route)
      ensures raised == (checkpointing && !ok)
      ensures StoreState() == if raised then old(StoreState()) else Record(State(), old(StoreState()))
      ensures stop == (!raised && barrier == m)
    {
      hide IndexExact, TargetsOk, SnapshotOf;
      txn := Txn(true, m, Some(a.next), a.source, route);
      if checkpointing {
        if !ok {
          return true, false;
        }
        var s := Save();
        disk := Some(s);
      }
      return false, barrier == m;
    }

    method ApplyFence(a: Attempt, applied: bool, unproven: bool) returns (ok: bool)
      requires Valid()
      modifies this`ledger, this`attemptStates
      ensures Valid() && (State(), ok) == FenceSection(old(State()), a, applied, unproven)
    {
      hide TargetsOk;
      if a.source.Some? && (unproven || !applied) {
        attemptStates := attemptStates + [FailedAttempt];
        return false;
      }
      if a.source.Some? {
        var boot := a.source.value.workerBoot;
        if boot != 0 && boot !in ledger.fenced {
          ledger := ledger.(fenced := ledger.fenced + [boot]);
        }
      }
      return true;
    }

    method InstallNewRoute(e: RouteEntry, acknowledged: bool) returns (ok: bool)
      requires Valid()
      modifies this`routes, this`attemptStates
      ensures Valid() && (State(), ok) == InstallSection(old(State()), e, acknowledged)
    {
      hide IndexExact, TargetsOk, Install;
      if !acknowledged {
        attemptStates := attemptStates + [RecoveryRequired];
        return false;
      }
      routes := Install(routes, e);
      return true;
    }

    method VerifyAndCommit(a: Attempt, verified: bool, now: int) returns (result: AttemptState)
      requires Valid()
      modifies this`ledger, this`txn, this`book, this`attemptStates
      ensures Valid() && (State(), result) == CommitSection(old(State()), a, verified, now)
    {
      hide TargetsOk;
      if !verified {
        attemptStates := attemptStates + [RecoveryRequired];
        return RecoveryRequired;
      }
      Cutover.CommitCurrent(ledger, a, a.slot);
      var slots := ledger.slots;
      var at := |slots|;
      if a.slot in ledger.index {
        at := ledger.index[a.slot];
      } else {
        slots := slots + [SlotState(a.slot, None, [])];
      }
      var st := slots[at];
      if a.source.Some? && st.current.Some?
        && !(st.current.value.id == a.source.value.id && st.current.value.generation == a.source.value.generation) {
        attemptStates := attemptStates + [Superseded];
        return Superseded;
      }
      var history := st.history;
      if st.current.Some? {
        history := history + [st.current.value.(state := Fenced)];
      } else if a.source.Some? {
        history := history + [a.source.value.(state := Fenced)];
      }
      slots := slots[at := st.(current := Some(a.next.(state := Active, provisory := false)), history := history)];
      assert slots == CommitSlots(ledger, a);
      var fenced := ledger.fenced;
      if a.source.Some? && a.source.value.workerBoot != 0 && a.source.value.workerBoot !in fenced {
        fenced := fenced + [a.source.value.workerBoot];
      }
      hide CommitSlots;
      ledger := ledger.(slots := slots, fenced := fenced, lastAuthority := a.next.authorityGeneration);
      book := book.(lastTransition := book.lastTransition[a.slot := now]);
      txn := txn.(has := false);
      attemptStates := attemptStates + [Completed];
      return Completed;
    }

    /** The whole attempt, section by section; no result means that an exception got out. */
    method ExecutePlan(plan: Plan, r: Replies) returns (result: Option<AttemptState>)
      requires Valid()
      modifies this
      ensures Valid() && Leaves(Execute(old(State()), old(StoreState()), plan, r), State(), StoreState(), result)
    {
      hide IndexExact, TargetsOk, Validate, BeginSection, FencePhase, SnapshotOf, Record;
      var v := BeginAttempt(plan);
      if v.Invalid? {
        return Some(FailedAttempt);
      }
      if v.Threw? {
        return None;
      }
      var raised, stop := Checkpoint(IntentOnly, v.attempt, None, r.intentSaved);
      if raised || stop {
        return if raised then None else Some(RecoveryRequired);
      }
      result := FencePlan(v.attempt, r);
    }

    /** From the fencing on. */
    method FencePlan(a: Attempt, r: Replies) returns (result: Option<AttemptState>)
      requires Valid()
      modifies this
      ensures Valid() && Leaves(FencePhase(old(State()), old(StoreState()), a, r), State(), StoreState(), result)
    {
      hide IndexExact, TargetsOk, FenceSection, ActivatePhase, SnapshotOf, Record;
      var ok := ApplyFence(a, r.fenceApplied, r.fenceUnproven);
      if !ok {
        return Some(FailedAttempt);
      }
      var raised, stop := Checkpoint(OldAdmissionFenced, a, None, r.fenceSaved);
      if raised || stop {
        return if raised then None else Some(RecoveryRequired);
      }
      result := FinishPlan(a, r);
    }

    /** From the activation on. */
    method FinishPlan(a: Attempt, r: Replies) returns (result: Option<AttemptState>)
      requires Valid()
      modifies this
      ensures Valid() && Leaves(ActivatePhase(old(State()), old(StoreState()), a, r), State(), StoreState(), result)
    {
      hide IndexExact, TargetsOk, InstallSection, CommitSection, RouteFor, SnapshotOf, Record;
      if !r.activated {
        attemptStates := attemptStates + [RecoveryRequired];
        return Some(RecoveryRequired);
      }
      var raised, stop := Checkpoint(ActivationAcknowledged, a, None, r.activationSaved);
      if raised || stop {
        return if raised then None else Some(RecoveryRequired);
      }
      var e := RouteFor(State(), a);
      var ok := InstallNewRoute(e, r.routed);
      if !ok {
        return Some(RecoveryRequired);
      }
      raised, stop := Checkpoint(RouteInstalled, a, Some(e), r.routeSaved);
      if raised || stop {
        return if raised then None else Some(RecoveryRequired);
      }
      var done := VerifyAndCommit(a, r.verified, r.now);
      result := Some(done);
    }

    method RunFailback(slot: SlotKey, rank: Rank, now: int, r: Replies, after: int)
      returns (result: Option<AttemptState>)
      requires Valid()
      modifies this
      ensures Valid()
      ensures Leaves(ExecuteFailback(old(State()), old(StoreState()), slot, rank, now, r, after), State(), StoreState(),
                     result)
    {
      hide IndexExact, TargetsOk, Evaluate, PlanFailover, Execute;
      if Evaluate(State(), slot, now).Refuse? {
        return Some(FailedAttempt);
      }
      AuthorizedHasHome(State(), slot, now);
      var p := ComputePlan(State(), slot, Some(book.preferred[slot]), rank);
      if p.NoPlan? {
        return Some(FailedAttempt);
      }
      if p.Exhausted? {
        return None;
      }
      result := ExecutePlan(p.plan, r);
      if result == Some(Completed) {
        book := book.(lastTransition := book.lastTransition[slot := after], attempts := book.attempts[slot := 0]);
      } else if result.Some? {
        book := book.(attempts :=
                      book.attempts[slot := (if slot in book.attempts then book.attempts[slot] else 0) + 1]);
      }
    }

    // ----- durability ----------------------------------------------------------------

    method Save() returns (s: Snapshot)
      ensures s == SnapshotOf(State())
    {
      hide AssignmentsOf, AllRoutes;
      var assignments := CollectAssignments(ledger.slots);
      s := Snapshot(2, ledger.epoch, world.policyGen, ledger.lastAuthority, world.services, assignments,
                    world.domains.domains, world.domains.memberships, Evidence.EventsOf(world.evidence.events),
                    AllRoutes(routes),
                    ledger.fenced, txn.has, txn.milestone, txn.pending, txn.source, txn.route);
    }

    /** Loading into a newly constructed object. */
    method LoadFrom(s: Snapshot)
      requires Valid() && State() == FRESH
      modifies this
      ensures Valid() && State() == Load(s) && StoreState() == old(StoreState())
    {
      hide LoadAssignments, ReconcileAll, InstallAll, MarkRevalidation, DeclareAll, SetMembers, Evidence.PublishAll;
      LoadFrame(s);
      var base := RebuildSlots(s);
      var domains := RebuildDomains(s);
      var evidence := RebuildEvidence(s);
      world := World(s.services, [], map[], map[], evidence, domains, {}, 0, s.policyGeneration, 0);
      routes := RebuildRoutes(s);
      txn := Txn(s.hasTxn, s.txnMilestone, s.pendingAssignment, s.sourceAssignment, s.pendingRoute);
      var slots := Reconcile(base.slots, base.fenced, txn);
      LoadAssignmentsFrame(Ledger([], map[], s.fencedBoots, s.epoch, s.lastAuthorityGen, 0), s.assignments);
      ledger := base.(slots := slots);
    }
  }

  /** A method left the object where the function says. */
  predicate Leaves(o: Outcome, f: Fabric, d: Store, result: Option<AttemptState>) {
    f == o.fab && d == o.store && result == (if o.Done? then Some(o.result) else None)
  }
}
