/** The coordinator core: its state, the questions it answers, and the locked sections of a
    cutover, each as a function from state to state. */
module Fabric {
  import opened Types
  import opened Domains
  import opened Selection
  import opened Routing
  import Evidence

  const MAX_CANDIDATES: nat := 4096
  const CUDA_DEVICE: Bytes := [99, 117, 100, 97, 95, 100, 101, 118, 105, 99, 101]  // "cuda_device"
  const PIPES: Bytes := [112, 105, 112, 101, 115, 47]  // "pipes/"

  // Counters that the source advances but never stores: every attempt sees the same value.
  const MINTED_GENERATION: u64 := 2
  const MINTED_ACTIVATION: u64 := 2
  const FIRST_REQUESTED_ROUTE: u64 := 2

  // ----- state -----------------------------------------------------------------------

  datatype SlotState = SlotState(slot: SlotKey, current: Option<Assignment>, history: seq<Assignment>)

  datatype TargetRecord = TargetRecord(id: u64, facts: Option<Facts>, hasState: bool, state: StateFacts,
                                       resources: seq<Resource>)

  /** Who holds authority. `minted` counts the assignment ids handed out by this process. */
  datatype Ledger = Ledger(
    slots: seq<SlotState>, index: map<SlotKey, nat>, fenced: seq<u64>,
    epoch: Epoch, lastAuthority: u64, minted: nat)

  /** What the coordinator knows about services, targets and failures. */
  datatype World = World(
    services: seq<ServiceDefinition>, targets: seq<TargetRecord>, targetIndex: map<u64, nat>,
    byService: map<u64, seq<nat>>, evidence: Evidence.Store, domains: Registry,
    confirmedFailed: set<u64>, receiptSeq: u64, policyGen: u64, gatewayBoot: u64)

  /** Failback bookkeeping; times are nanoseconds of the injected clock. */
  datatype Book = Book(
    preferred: map<SlotKey, u64>, lastTransition: map<SlotKey, int>, attempts: map<SlotKey, nat>,
    manual: set<SlotKey>, readySince: map<u64, int>)

  datatype Fabric = Fabric(
    ledger: Ledger, world: World, routes: Routes, txn: Txn, barrier: Milestone,
    attemptStates: seq<AttemptState>, book: Book)

  const EMPTY_LEDGER := Ledger([], map[], [], Epoch(0, 0, 0), 1, 0)
  const EMPTY_WORLD := World([], [], map[], map[], Evidence.EMPTY_STORE, EMPTY_REGISTRY, {}, 0, 1, 0)
  const EMPTY_BOOK := Book(map[], map[], map[], {}, map[])

  /** A newly constructed fabric; its epoch is set by the coordinator's main program. */
  const FRESH :=
    Fabric(EMPTY_LEDGER, EMPTY_WORLD, [], Txn(false, IntentOnly, None, None, None), VerificationComplete, [],
           EMPTY_BOOK)

  function WithEpoch(f: Fabric, value: u64): Fabric {
    f.(ledger := f.ledger.(epoch := Epoch(value, 1, 1)))
  }

  // ----- lookups ---------------------------------------------------------------------

  function FindService(ds: seq<ServiceDefinition>, id: u64): (r: Option<ServiceDefinition>)
    ensures r.Some? ==> r.value in ds && r.value.service == id
    ensures r.None? ==> forall d :: d in ds ==> d.service != id
  {
    if ds == [] then None else if ds[0].service == id then Some(ds[0]) else FindService(ds[1..], id)
  }

  /** Slots are found through the index only. */
  predicate HasSlot(l: Ledger, k: SlotKey) {
    k in l.index && l.index[k] < |l.slots|
  }

  function CurrentOf(l: Ledger, k: SlotKey): Option<Assignment> {
    if HasSlot(l, k) then l.slots[l.index[k]].current else None
  }

  function AddFenced(fenced: seq<u64>, boot: u64): seq<u64> {
    if boot != 0 && boot !in fenced then fenced + [boot] else fenced
  }

  predicate SameAssignment(a: Assignment, b: Assignment) {
    a.id == b.id && a.generation == b.generation
  }

  function TargetRecordOf(w: World, t: u64): Option<TargetRecord> {
    if t in w.targetIndex && w.targetIndex[t] < |w.targets| then Some(w.targets[w.targetIndex[t]]) else None
  }

  // ----- candidate snapshot ----------------------------------------------------------

  function InferContinuity(s: StateFacts, f: Facts): ContinuityClass {
    if StateComplete(s) && s.checkpointGeneration.Some? then CheckpointRestore
    else if StateComplete(s) && s.stateGeneration.Some? then SessionStateRebind
    else if f.ready then ReplaySafeRequests
    else StatelessRestart
  }

  function EstimatedCosts(t: TargetRecord, f: Facts): Costs {
    var prep := if f.ready then 0 else 5000;
    var restore := if t.hasState && t.state.available then 200 else 0;
    Costs(prep, restore, 50, (if prep > restore then prep else restore) + 160,
          if t.hasState && t.state.available then 0 else 1000)
  }

  function CandidateOf(t: TargetRecord, f: Facts): Candidate {
    Candidate(f, t.state, t.resources, EstimatedCosts(t, f), Some(InferContinuity(t.state, f)), None, false)
  }

  /** What a candidate is estimated at: 160 ms for the four phases, and the longer of preparing an engine
      that is not ready and restoring state that is there; state that is not there is lost. */
  lemma Estimates(t: TargetRecord, f: Facts)
    ensures var held := t.hasState && t.state.available;
            CandidateOf(t, f).costs ==
            if f.ready && held then Costs(0, 200, 50, 360, 0)
            else if f.ready then Costs(0, 0, 50, 160, 1000)
            else if held then Costs(5000, 200, 50, 5160, 0)
            else Costs(5000, 0, 50, 5160, 1000)
    ensures var c := CandidateOf(t, f).continuity.value;
            && (c.CheckpointRestore? ==> StateComplete(t.state) && t.state.checkpointGeneration.Some?)
            && (c.SessionStateRebind? <==>
                StateComplete(t.state) && t.state.checkpointGeneration.None? && t.state.stateGeneration.Some?)
            && (c.StatelessRestart? ==> !f.ready)
            && c in {CheckpointRestore, SessionStateRebind, ReplaySafeRequests, StatelessRestart}
  {
  }

  function Emit(t: TargetRecord): seq<Candidate> {
    if t.facts.Some? then [CandidateOf(t, t.facts.value)] else []
  }

  function EmitAt(ts: seq<TargetRecord>, at: seq<nat>): seq<Candidate> {
    if at == [] then []
    else (if at[0] < |ts| then Emit(ts[at[0]]) else []) + EmitAt(ts, at[1..])
  }

  predicate Matches(t: TargetRecord, model: Bytes, abi: Bytes) {
    t.facts.Some? && (model != [] ==> t.facts.value.modelKey == model)
      && (abi != [] ==> t.facts.value.runtimeAbi == abi)
  }

  function EmitMatching(ts: seq<TargetRecord>, model: Bytes, abi: Bytes): seq<Candidate> {
    if ts == [] then []
    else (if Matches(ts[0], model, abi) then Emit(ts[0]) else []) + EmitMatching(ts[1..], model, abi)
  }

  /** Targets bound to the service, or (if none is bound) every compatible target. */
  function Offers(w: World, slot: SlotKey): seq<Candidate> {
    var svc := FindService(w.services, slot.service);
    if slot.service in w.byService && w.byService[slot.service] != [] then EmitAt(w.targets, w.byService[slot.service])
    else if svc.Some? then EmitMatching(w.targets, svc.value.compatibility.modelKey, svc.value.compatibility.runtimeAbi)
    else EmitMatching(w.targets, [], [])
  }

  function Candidates(w: World, slot: SlotKey): seq<Candidate> {
    var all := Offers(w, slot);
    if |all| > MAX_CANDIDATES then all[..MAX_CANDIDATES] else all
  }

  /** A target with facts that is bound to the service or, if none is bound, compatible with it. */
  ghost predicate Offered(w: World, slot: SlotKey, i: nat) {
    && i < |w.targets| && w.targets[i].facts.Some?
    && if slot.service in w.byService && w.byService[slot.service] != [] then i in w.byService[slot.service]
       else
         var svc := FindService(w.services, slot.service);
         svc.Some? ==> Matches(w.targets[i], svc.value.compatibility.modelKey, svc.value.compatibility.runtimeAbi)
  }

  ghost predicate MadeFrom(ts: seq<TargetRecord>, i: nat, c: Candidate) {
    i < |ts| && ts[i].facts.Some? && c == CandidateOf(ts[i], ts[i].facts.value)
  }

  lemma {:induction false} EmitAtExact(ts: seq<TargetRecord>, at: seq<nat>, c: Candidate)
    ensures c in EmitAt(ts, at) <==> exists i :: i in at && MadeFrom(ts, i, c)
  {
    hide CandidateOf;
    if at != [] {
      EmitAtExact(ts, at[1..], c);
      assert c in EmitAt(ts, at) <==> MadeFrom(ts, at[0], c) || c in EmitAt(ts, at[1..]);
      assert forall i :: i in at <==> i == at[0] || i in at[1..];
    }
  }

  lemma {:induction false} EmitMatchingExact(ts: seq<TargetRecord>, model: Bytes, abi: Bytes, c: Candidate)
    ensures c in EmitMatching(ts, model, abi) <==>
            exists i :: 0 <= i < |ts| && Matches(ts[i], model, abi) && MadeFrom(ts, i, c)
  {
    hide CandidateOf;
    if ts != [] {
      var rest := ts[1..];
      EmitMatchingExact(rest, model, abi, c);
      assert c in EmitMatching(ts, model, abi) <==>
             (Matches(ts[0], model, abi) && MadeFrom(ts, 0, c)) || c in EmitMatching(rest, model, abi);
      if c in EmitMatching(rest, model, abi) {
        var i :| 0 <= i < |rest| && Matches(rest[i], model, abi) && MadeFrom(rest, i, c);
        assert Matches(ts[i + 1], model, abi) && MadeFrom(ts, i + 1, c);
      }
      if i :| 1 <= i < |ts| && Matches(ts[i], model, abi) && MadeFrom(ts, i, c) {
        assert Matches(rest[i - 1], model, abi) && MadeFrom(rest, i - 1, c);
      }
    }
  }

  /** The snapshot holds exactly the offered targets, each as its record has it, as long as there are
      no more of them than the limit; beyond it a candidate is still an offered target. No candidate
      of a snapshot has an unknown continuity class. */
  lemma CandidatesExact(w: World, slot: SlotKey, c: Candidate)
    ensures c in Candidates(w, slot) ==> exists i :: Offered(w, slot, i) && MadeFrom(w.targets, i, c)
    ensures |Offers(w, slot)| <= MAX_CANDIDATES ==>
            ((exists i :: Offered(w, slot, i) && MadeFrom(w.targets, i, c)) ==> c in Candidates(w, slot))
    ensures c in Candidates(w, slot) ==> c.continuity.Some? && !c.continuity.value.UnknownContinuity?
  {
    hide FindService, EmitAt, EmitMatching, Matches;
    var svc := FindService(w.services, slot.service);
    if slot.service in w.byService && w.byService[slot.service] != [] {
      EmitAtExact(w.targets, w.byService[slot.service], c);
    } else if svc.Some? {
      EmitMatchingExact(w.targets, svc.value.compatibility.modelKey, svc.value.compatibility.runtimeAbi, c);
    } else {
      EmitMatchingExact(w.targets, [], [], c);
      AllMatch(w.targets);
    }
  }

  lemma AllMatch(ts: seq<TargetRecord>)
    ensures forall i :: 0 <= i < |ts| && ts[i].facts.Some? ==> Matches(ts[i], [], [])
  {
  }

  // ----- selection context -----------------------------------------------------------

  predicate Increasing(xs: seq<u64>) {
    forall i, j :: 0 <= i < j < |xs| ==> xs[i] < xs[j]
  }

  function InsertUnique(x: u64, xs: seq<u64>): (r: seq<u64>)
    ensures forall y :: y in r <==> y == x || y in xs
  {
    if xs == [] || x < xs[0] then [x] + xs
    else if x == xs[0] then xs
    else
      assert xs == [xs[0]] + xs[1..];
      [xs[0]] + InsertUnique(x, xs[1..])
  }

  lemma {:induction false} InsertKeepsIncreasing(x: u64, xs: seq<u64>)
    requires Increasing(xs)
    ensures Increasing(InsertUnique(x, xs))
  {
    if xs != [] && x > xs[0] {
      InsertKeepsIncreasing(x, xs[1..]);
      var rest := InsertUnique(x, xs[1..]);
      forall i | 0 <= i < |rest| ensures xs[0] < rest[i] {
        assert rest[i] in rest;
      }
    }
  }

  /** Sorting and dropping repetitions: what the context lists is ordered, without repetition, and
      has the same members. */
  lemma {:induction false} SortUniqueSorts(xs: seq<u64>)
    ensures Increasing(SortUnique(xs))
  {
    if xs != [] {
      SortUniqueSorts(xs[1..]);
      InsertKeepsIncreasing(xs[0], SortUnique(xs[1..]));
    }
  }

  function SortUnique(xs: seq<u64>): (r: seq<u64>)
    ensures forall y :: y in r <==> y in xs
  {
    if xs == [] then [] else InsertUnique(xs[0], SortUnique(xs[1..]))
  }

  /** The ids of the targets bound to a service. */
  function BoundTargets(ts: seq<TargetRecord>, at: seq<nat>): seq<u64> {
    if at == [] then []
    else (if at[0] < |ts| then [ts[at[0]].id] else []) + BoundTargets(ts, at[1..])
  }

  /** The targets of a binding are the records it points to. */
  lemma {:induction false} BoundTargetsExact(ts: seq<TargetRecord>, at: seq<nat>, t: u64)
    ensures t in BoundTargets(ts, at) <==> exists k :: 0 <= k < |at| && at[k] < |ts| && ts[at[k]].id == t
  {
    if at != [] {
      BoundTargetsExact(ts, at[1..], t);
      if k :| 0 <= k < |at| - 1 && at[1..][k] < |ts| && ts[at[1..][k]].id == t {
        assert at[k + 1] == at[1..][k];
      }
      if k :| 1 <= k < |at| && at[k] < |ts| && ts[at[k]].id == t {
        assert at[1..][k - 1] == at[k];
      }
    }
  }

  function Failed(w: World, ts: seq<u64>): seq<u64> {
    if ts == [] then [] else (if ts[0] in w.confirmedFailed then [ts[0]] else []) + Failed(w, ts[1..])
  }

  lemma {:induction false} FailedExact(w: World, ts: seq<u64>, t: u64)
    ensures t in Failed(w, ts) <==> t in ts && t in w.confirmedFailed
  {
    if ts != [] {
      FailedExact(w, ts[1..], t);
      assert t in ts <==> t == ts[0] || t in ts[1..];
    }
  }

  function DomainsOf(ms: seq<Membership>, t: u64): seq<u64> {
    if ms == [] then [] else (if ms[0].target == t && ms[0].known then [ms[0].domain] else []) + DomainsOf(ms[1..], t)
  }

  function DomainsOfAll(ms: seq<Membership>, ts: seq<u64>): seq<u64> {
    if ts == [] then [] else DomainsOf(ms, ts[0]) + DomainsOfAll(ms, ts[1..])
  }

  function BuildContext(f: Fabric, slot: SlotKey, preferred: Option<u64>): Context {
    var cur := CurrentOf(f.ledger, slot);
    var failedTarget := if cur.Some? then cur.value.target else 0;
    var bound := if slot.service in f.world.byService
      then BoundTargets(f.world.targets, f.world.byService[slot.service]) else [];
    var relevant := bound + (if failedTarget != 0 then [failedTarget] else []);
    var confirmed := Failed(f.world, relevant);
    Context(failedTarget, SortUnique(confirmed), f.ledger.fenced,
            SortUnique(DomainsOfAll(f.world.domains.memberships, confirmed)), preferred, true)
  }

  /** A confirmed failure rules a target out exactly when the target is bound to the service
      or is the one being replaced; an unbound target with a confirmed failure is not excluded
      by that failure. */
  lemma ConfirmedFailureSeenIff(f: Fabric, slot: SlotKey, preferred: Option<u64>, t: u64)
    ensures t in BuildContext(f, slot, preferred).confirmedFailed <==>
            t in f.world.confirmedFailed &&
            ((slot.service in f.world.byService
              && t in BoundTargets(f.world.targets, f.world.byService[slot.service])) ||
             (t != 0 && CurrentOf(f.ledger, slot).Some? && CurrentOf(f.ledger, slot).value.target == t))
  {
    hide BoundTargets, Failed, SortUnique, DomainsOfAll;
    var cur := CurrentOf(f.ledger, slot);
    var failedTarget := if cur.Some? then cur.value.target else 0;
    var bound := if slot.service in f.world.byService
      then BoundTargets(f.world.targets, f.world.byService[slot.service]) else [];
    FailedExact(f.world, bound + (if failedTarget != 0 then [failedTarget] else []), t);
  }

  lemma {:induction false} DomainsOfExact(ms: seq<Membership>, t: u64, d: u64)
    ensures d in DomainsOf(ms, t) <==> MemberAt(ms, t, d)
  {
    if ms != [] {
      DomainsOfExact(ms[1..], t, d);
      assert forall m :: m in ms <==> m == ms[0] || m in ms[1..];
    }
  }

  lemma {:induction false} DomainsOfAllExact(ms: seq<Membership>, ts: seq<u64>, d: u64)
    ensures d in DomainsOfAll(ms, ts) <==> exists t :: t in ts && MemberAt(ms, t, d)
  {
    hide MemberAt;
    if ts != [] {
      DomainsOfAllExact(ms, ts[1..], d);
      DomainsOfExact(ms, ts[0], d);
      assert forall t :: t in ts <==> t == ts[0] || t in ts[1..];
    }
  }

  /** The failed domains of the context are those that a target with a visible confirmed failure is
      declared in; the domains above them are not listed. */
  lemma FailedDomainsExact(f: Fabric, slot: SlotKey, preferred: Option<u64>, d: u64)
    ensures d in BuildContext(f, slot, preferred).failedDomains <==>
            exists t :: t in BuildContext(f, slot, preferred).confirmedFailed
              && MemberAt(f.world.domains.memberships, t, d)
  {
    hide BoundTargets, Failed, SortUnique, DomainsOfAll, MemberAt, CurrentOf;
    var cur := CurrentOf(f.ledger, slot);
    var failedTarget := if cur.Some? then cur.value.target else 0;
    var bound :=
      if slot.service in f.world.byService then BoundTargets(f.world.targets, f.world.byService[slot.service]) else [];
    var confirmed := Failed(f.world, bound + (if failedTarget != 0 then [failedTarget] else []));
    DomainsOfAllExact(f.world.domains.memberships, confirmed, d);
  }

  // ----- planning --------------------------------------------------------------------

  datatype Plan = Plan(slot: SlotKey, source: Option<Assignment>, selected: Option<Candidate>, route: u64,
                       routeGeneration: u64)

  datatype PlanOutcome = NoPlan | Exhausted | Planned(plan: Plan)

  function PlanFailover(f: Fabric, slot: SlotKey, preferred: Option<u64>, rank: Rank): PlanOutcome {
    match FindService(f.world.services, slot.service)
    case None => NoPlan
    case Some(svc) =>
      var r := Select(Candidates(f.world, slot), svc, f.world.domains, BuildContext(f, slot, preferred), rank);
      if r.selected.None? then NoPlan
      else
        match CurrentRoute(f.routes, slot)
        case None => Planned(Plan(slot, CurrentOf(f.ledger, slot), r.selected, FIRST_REQUESTED_ROUTE, 2))
        case Some(e) =>
          if e.generation == U64_LIMIT - 1 then Exhausted
          else Planned(Plan(slot, CurrentOf(f.ledger, slot), r.selected, e.route, e.generation + 1))
  }

  // ----- the cutover sections --------------------------------------------------------

  /** What an attempt carries between its locked sections. */
  datatype Attempt = Attempt(slot: SlotKey, source: Option<Assignment>, next: Assignment, selected: Candidate)

  datatype Verdict =
    | Invalid                    // refused: recorded as FAILED
    | Threw(minted: nat)         // the authority generation is exhausted; the id is spent
    | Valid(attempt: Attempt)

  /** The first candidate of the fresh snapshot with the planned target and boot. */
  function FirstMatch(cs: seq<Candidate>, target: u64, boot: u64): (r: Option<Candidate>)
    ensures r.Some? ==> r.value in cs && r.value.facts.target == target && r.value.facts.workerBoot == boot
  {
    if cs == [] then None
    else if cs[0].facts.target == target && cs[0].facts.workerBoot == boot then Some(cs[0])
    else FirstMatch(cs[1..], target, boot)
  }

  lemma {:induction false} FirstMatchFinds(cs: seq<Candidate>, c: Candidate)
    requires c in cs
    ensures FirstMatch(cs, c.facts.target, c.facts.workerBoot).Some?
  {
    if cs[0] != c {
      FirstMatchFinds(cs[1..], c);
    }
  }

  predicate UsesCuda(rs: seq<Resource>) {
    exists r :: r in rs && r.resourceClass == CUDA_DEVICE
  }

  function MintedId(minted: nat): u64 {
    (1 + minted) % U64_LIMIT
  }

  function NextAssignment(f: Fabric, plan: Plan, c: Candidate): Assignment
    requires f.ledger.lastAuthority < U64_LIMIT - 1
  {
    Assignment(MintedId(f.ledger.minted), MINTED_GENERATION, plan.slot, c.facts.target, c.facts.targetGeneration,
               c.facts.replica, c.facts.replicaGeneration, c.facts.engine, c.facts.engineIncarnation, c.facts.profile,
               f.ledger.lastAuthority + 1, MINTED_ACTIVATION, 2, plan.route, plan.routeGeneration, c.facts.workerBoot,
               if UsesCuda(c.resources) then [1] else [], [], Authorized, true, DERIVED)
  }

  function Validate(f: Fabric, plan: Plan): Verdict {
    var svc := FindService(f.world.services, plan.slot.service);
    var cur := CurrentOf(f.ledger, plan.slot);
    if svc.None? || plan.selected.None? then Invalid
    else if plan.source.Some? && (cur.None? || !SameAssignment(cur.value, plan.source.value)) then Invalid
    else
      var sel := plan.selected.value.facts;
      var found := FirstMatch(Candidates(f.world, plan.slot), sel.target, sel.workerBoot);
      if found.None? || !Eligible(found.value, svc.value, f.world.domains, BuildContext(f, plan.slot, None))
        then Invalid
      else if f.ledger.lastAuthority == U64_LIMIT - 1 then Threw(f.ledger.minted + 1)
      else Valid(Attempt(plan.slot, cur, NextAssignment(f, plan, found.value), found.value))
  }

  function Note(f: Fabric, s: AttemptState): Fabric {
    f.(attemptStates := f.attemptStates + [s])
  }

  /** The validating section: mints an id for an accepted plan. */
  function BeginSection(f: Fabric, plan: Plan): Fabric {
    match Validate(f, plan)
    case Invalid => Note(f, FailedAttempt)
    case Threw(minted) => f.(ledger := f.ledger.(minted := minted))
    case Valid(_) => Note(f.(ledger := f.ledger.(minted := f.ledger.minted + 1)), Evaluating)
  }

  function MarkTxn(f: Fabric, m: Milestone, a: Attempt, route: Option<RouteEntry>): Fabric {
    f.(txn := Txn(true, m, Some(a.next), a.source, route))
  }

  function FenceSource(l: Ledger, a: Attempt): Ledger {
    if a.source.Some? then l.(fenced := AddFenced(l.fenced, a.source.value.workerBoot)) else l
  }

  /** The fencing section; with no old assignment the reply counts as applied. */
  function FenceSection(f: Fabric, a: Attempt, applied: bool, unproven: bool): (Fabric, bool) {
    if a.source.Some? && (unproven || !applied) then (Note(f, FailedAttempt), false)
    else (f.(ledger := FenceSource(f.ledger, a)), true)
  }

  function Decimal(n: nat): Bytes {
    if n < 10 then [48 + n] else Decimal(n / 10) + [48 + n % 10]
  }

  /** Two targets never share a transport name. */
  lemma {:induction false} DecimalInjective(m: nat, n: nat)
    requires Decimal(m) == Decimal(n)
    ensures m == n
  {
    var s, t := Decimal(m), Decimal(n);
    assert s[|s| - 1] == 48 + m % 10 && t[|t| - 1] == 48 + n % 10;
    if m >= 10 && n >= 10 {
      assert s[..|s| - 1] == Decimal(m / 10) && t[..|t| - 1] == Decimal(n / 10);
      DecimalInjective(m / 10, n / 10);
    }
  }

  function RouteFor(f: Fabric, a: Attempt): RouteEntry {
    RouteEntry(a.next.route, a.next.routeGeneration, a.slot, a.next.target, a.next.targetGeneration,
               a.selected.facts.engineIncarnation, a.selected.facts.workerBoot, a.next.id, a.next.generation,
               f.ledger.epoch, f.world.gatewayBoot, Acknowledged, PIPES + Decimal(a.selected.facts.target), DERIVED)
  }

  /** The installation section; whether the table took the entry is not looked at. */
  function InstallSection(f: Fabric, e: RouteEntry, acknowledged: bool): (Fabric, bool) {
    if !acknowledged then (Note(f, RecoveryRequired), false) else (f.(routes := Install(f.routes, e)), true)
  }

  function Activated(a: Attempt): Assignment {
    a.next.(state := Active, provisory := false)
  }

  predicate Supersedes(l: Ledger, a: Attempt) {
    var cur := CurrentOf(l, a.slot);
    a.source.Some? && cur.Some? && !SameAssignment(cur.value, a.source.value)
  }

  function Retire(st: SlotState, a: Attempt): seq<Assignment> {
    if st.current.Some? then st.history + [st.current.value.(state := Fenced)]
    else if a.source.Some? then st.history + [a.source.value.(state := Fenced)]
    else st.history
  }

  /** The slot of the commit, appended without an index entry when it is not found. */
  function CommitSlots(l: Ledger, a: Attempt): seq<SlotState> {
    if HasSlot(l, a.slot) then
      var i := l.index[a.slot];
      l.slots[i := l.slots[i].(current := Some(Activated(a)), history := Retire(l.slots[i], a))]
    else
      var st := SlotState(a.slot, None, []);
      l.slots + [SlotState(a.slot, Some(Activated(a)), Retire(st, a))]
  }

  function CommitLedger(l: Ledger, a: Attempt): Ledger {
    FenceSource(l, a).(slots := CommitSlots(l, a), lastAuthority := a.next.authorityGeneration)
  }

  /** The verifying section: the result is COMPLETED, SUPERSEDED or RECOVERY_REQUIRED. */
  function CommitSection(f: Fabric, a: Attempt, verified: bool, now: int): (Fabric, AttemptState) {
    if !verified then (Note(f, RecoveryRequired), RecoveryRequired)
    else if Supersedes(f.ledger, a) then (Note(f, Superseded), Superseded)
    else (Note(f.(ledger := CommitLedger(f.ledger, a), txn := f.txn.(has := false),
                  book := f.book.(lastTransition := f.book.lastTransition[a.slot := now])), Completed), Completed)
  }

  // ----- the authority gate ----------------------------------------------------------

  datatype Gate =
    | Allowed | NoCurrent | StaleEpoch | StaleAssignment | StaleRouteGeneration | RouteNotValid
    | BootNotCurrent | BootFenced | NotActive

  predicate RouteBlocks(rs: Routes, slot: SlotKey) {
    var r := CurrentRoute(rs, slot);
    r.Some? && (r.value.state.RouteNeedsRevalidation? || r.value.state.StaleRoute?)
  }

  function DispatchGate(f: Fabric, auth: Authorization): Gate {
    match CurrentOf(f.ledger, auth.slot)
    case None => NoCurrent
    case Some(cur) =>
      if auth.epoch != f.ledger.epoch then StaleEpoch
      else if auth.assignment != cur.id || auth.assignmentGeneration != cur.generation then StaleAssignment
      else if auth.routeGeneration != cur.routeGeneration then StaleRouteGeneration
      else if RouteBlocks(f.routes, auth.slot) then RouteNotValid
      else if auth.workerBoot != cur.workerBoot then BootNotCurrent
      else if auth.workerBoot in f.ledger.fenced then BootFenced
      else if !cur.state.Active? then NotActive
      else Allowed
  }

  predicate Accepts(f: Fabric, auth: Authorization) {
    DispatchGate(f, auth).Allowed?
  }
}
