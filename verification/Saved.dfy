/** The coordinator can always read back what it saved: the checks of the decoder hold of every
    state that a properly prepared run reaches, across restarts. */
module Saved {
  import opened Types
  import opened Selection
  import opened Routing
  import opened Fabric
  import opened Operations
  import opened Durable
  import opened Persistence
  import opened Cutover
  import opened Authority
  import opened Restart

  // ----- the invariant ---------------------------------------------------------------

  ghost predicate ServicesOk(ds: seq<ServiceDefinition>) {
    DistinctServices(ds) && forall i :: 0 <= i < |ds| ==> ds[i].slotsCount != 0
  }

  ghost predicate AssignmentOk(ds: seq<ServiceDefinition>, a: Assignment) {
    KnownService(ds, a.slot.service) && a.authorityGeneration != 0
  }

  ghost predicate SlotOk(ds: seq<ServiceDefinition>, st: SlotState) {
    && HistoryRetired(st) && SlotCoherent(st)
    && (st.current.Some? ==> AssignmentOk(ds, st.current.value))
    && forall a :: a in st.history ==> AssignmentOk(ds, a)
  }

  predicate SlotIndexed(l: Ledger, i: nat)
    requires i < |l.slots|
  {
    l.slots[i].slot in l.index && l.index[l.slots[i].slot] == i
  }

  /** The ledger stores nothing that the decoder objects to by itself. */
  ghost predicate LedgerOk(ds: seq<ServiceDefinition>, l: Ledger) {
    && IndexExact(l) && l.lastAuthority != 0
    && forall i :: 0 <= i < |l.slots| ==> SlotOk(ds, l.slots[i])
  }

  /** Every stored slot can be found. */
  ghost predicate AllIndexed(l: Ledger) {
    forall i :: 0 <= i < |l.slots| ==> SlotIndexed(l, i)
  }

  ghost predicate AttemptOk(ds: seq<ServiceDefinition>, a: Attempt) {
    && a.next.slot == a.slot && a.next.state.Authorized? && AssignmentOk(ds, a.next)
    && (a.source.Some? ==> a.source.value.slot == a.slot && AssignmentOk(ds, a.source.value))
  }

  predicate TxnOk(t: Txn) {
    t.has && t.pending.Some? ==> t.pending.value.state.Authorized?
  }

  ghost predicate FabricOk(f: Fabric) {
    ServicesOk(f.world.services) && LedgerOk(f.world.services, f.ledger) && TxnOk(f.txn)
  }

  ghost predicate AttemptsOk(m: Machine) {
    forall t :: t in m.procs ==> AttemptOk(m.fab.world.services, m.procs[t].attempt)
  }

  /** Every attempt works on a slot that can be found, and so do the stored slots. */
  ghost predicate Indexed(m: Machine) {
    && AllIndexed(m.fab.ledger)
    && forall t :: t in m.procs ==> HasSlot(m.fab.ledger, m.procs[t].attempt.slot)
  }

  // ----- what it is for --------------------------------------------------------------

  lemma OneActiveConcat(xs: seq<Assignment>, ys: seq<Assignment>)
    requires OneActivePerSlot(xs) && OneActivePerSlot(ys)
    requires forall x, y :: x in xs && y in ys && x.state.Active? && y.state.Active? ==> x.slot != y.slot
    ensures OneActivePerSlot(xs + ys)
  {
    var zs := xs + ys;
    forall i, j | 0 <= i < j < |zs| && zs[i].state.Active? && zs[j].state.Active? ensures zs[i].slot != zs[j].slot {
      if i < |xs| <= j {
        assert zs[i] in xs && zs[j] in ys;
      }
    }
  }

  lemma OneActiveInSlot(st: SlotState)
    requires HistoryRetired(st)
    ensures OneActivePerSlot(SlotAssignments(st))
  {
    var xs := SlotAssignments(st);
    forall j | 1 <= j < |xs| && st.current.Some? ensures !xs[j].state.Active? {
      assert xs[j] in st.history;
    }
    forall j | 0 <= j < |xs| && st.current.None? ensures !xs[j].state.Active? {
      assert xs[j] in st.history;
    }
  }

  lemma {:induction false} SavedAssignments(slots: seq<SlotState>, a: Assignment)
    requires a in AssignmentsOf(slots)
    ensures exists i :: 0 <= i < |slots| && a in SlotAssignments(slots[i])
  {
    if slots != [] && a !in SlotAssignments(slots[0]) {
      SavedAssignments(slots[1..], a);
      var i :| 0 <= i < |slots| - 1 && a in SlotAssignments(slots[1..][i]);
      assert slots[i + 1] == slots[1..][i];
    }
  }

  lemma SavedSlot(st: SlotState, a: Assignment)
    requires SlotCoherent(st) && a in SlotAssignments(st)
    ensures a.slot == st.slot && (st.current == Some(a) || a in st.history)
  {
  }

  lemma {:induction false} TidyIsOneActive(slots: seq<SlotState>)
    requires Tidy(slots)
    ensures OneActivePerSlot(AssignmentsOf(slots))
  {
    hide SlotAssignments, HistoryRetired, SlotCoherent, OneActivePerSlot;
    if slots == [] {
      assert AssignmentsOf(slots) == [];
      NothingActive();
    } else {
      var st, rest := slots[0], slots[1..];
      assert HistoryRetired(st) && SlotCoherent(st);
      TidyIsOneActive(rest);
      OneActiveInSlot(st);
      forall x, y | x in SlotAssignments(st) && y in AssignmentsOf(rest) && x.state.Active? && y.state.Active?
        ensures x.slot != y.slot
      {
        SavedSlot(st, x);
        SavedAssignments(rest, y);
        var i :| 0 <= i < |rest| && y in SlotAssignments(rest[i]);
        assert slots[i + 1] == rest[i];
        SavedSlot(rest[i], y);
      }
      OneActiveConcat(SlotAssignments(st), AssignmentsOf(rest));
    }
  }

  lemma NothingActive()
    ensures OneActivePerSlot([])
  {
  }

  lemma IndexedIsTidy(ds: seq<ServiceDefinition>, l: Ledger)
    requires LedgerOk(ds, l) && AllIndexed(l)
    ensures Tidy(l.slots)
  {
    hide SlotCoherent, HistoryRetired, AssignmentOk;
    forall i | 0 <= i < |l.slots| ensures HistoryRetired(l.slots[i]) && SlotCoherent(l.slots[i]) {
      assert SlotOk(ds, l.slots[i]);
    }
    forall i, j | 0 <= i < j < |l.slots| ensures l.slots[i].slot != l.slots[j].slot {
      assert SlotIndexed(l, i) && SlotIndexed(l, j);
    }
  }

  /** A prepared run keeps every slot orderly: what a crash comes back with is what it held. */
  lemma IndexedIsOrderly(ds: seq<ServiceDefinition>, l: Ledger, k: SlotKey)
    requires LedgerOk(ds, l) && AllIndexed(l) && HasSlot(l, k)
    ensures Orderly(l, k)
  {
    hide AssignmentOk, HistoryRetired, SlotAssignments;
    assert SlotOk(ds, l.slots[l.index[k]]);
    forall i | 0 <= i < |l.slots| && i != l.index[k] ensures NeverNames(l.slots[i], k) {
      assert SlotIndexed(l, i) && SlotOk(ds, l.slots[i]);
      forall x | x in SlotAssignments(l.slots[i]) ensures x.slot != k {
        SavedSlot(l.slots[i], x);
      }
    }
  }

  /** The decoder's objection to a state of the coordinator can only be a second active assignment. */
  lemma ReadableIffOneActive(f: Fabric)
    requires FabricOk(f)
    ensures SemanticallyValid(SnapshotOf(f)) <==> OneActivePerSlot(AssignmentsOf(f.ledger.slots))
    ensures PendingAuthorized(SnapshotOf(f))
  {
    hide OneActivePerSlot, DistinctServices, KnownService, AssignmentsOf, AllRoutes, SlotAssignments, HistoryRetired;
    var xs := AssignmentsOf(f.ledger.slots);
    forall i | 0 <= i < |xs| ensures AssignmentOk(f.world.services, xs[i]) {
      SavedAssignments(f.ledger.slots, xs[i]);
      var j :| 0 <= j < |f.ledger.slots| && xs[i] in SlotAssignments(f.ledger.slots[j]);
      assert SlotOk(f.world.services, f.ledger.slots[j]);
      SavedSlot(f.ledger.slots[j], xs[i]);
    }
  }

  lemma FabricIsReadable(f: Fabric)
    requires FabricOk(f) && AllIndexed(f.ledger)
    ensures SemanticallyValid(SnapshotOf(f)) && PendingAuthorized(SnapshotOf(f))
  {
    hide Tidy, OneActivePerSlot, SemanticallyValid, PendingAuthorized, AssignmentsOf, AllRoutes, LedgerOk, ServicesOk;
    IndexedIsTidy(f.world.services, f.ledger);
    TidyIsOneActive(f.ledger.slots);
    ReadableIffOneActive(f);
  }

  // ----- what every prepared step keeps ----------------------------------------------

  /** What the run is asked for: services have slots, and an initial assignment names an existing
      service. */
  ghost predicate Proper(f: Fabric, e: Event) {
    match e
    case Do(CreateService(d)) => d.slotsCount != 0
    case Do(SetInitial(a, _)) => KnownService(f.world.services, a.slot.service)
    case _ => true
  }

  /** No attempt begins on a slot that was never assigned. */
  predicate Visible(f: Fabric, e: Event) {
    e.Begin? ==> HasSlot(f.ledger, e.plan.slot)
  }

  lemma MoreServices(ds: seq<ServiceDefinition>, d: ServiceDefinition)
    requires ServicesOk(ds) && d.slotsCount != 0 && FindService(ds, d.service).None?
    ensures ServicesOk(ds + [d])
  {
  }

  lemma StillKnown(ds: seq<ServiceDefinition>, d: ServiceDefinition)
    ensures forall x: Assignment :: AssignmentOk(ds, x) ==> AssignmentOk(ds + [d], x)
  {
    forall x: Assignment | AssignmentOk(ds, x) ensures AssignmentOk(ds + [d], x) {
      var i :| 0 <= i < |ds| && ds[i].service == x.slot.service;
      assert (ds + [d])[i].service == x.slot.service;
    }
  }

  lemma CreateKeeps(m: Machine, d: ServiceDefinition)
    requires FabricOk(m.fab) && AttemptsOk(m) && d.slotsCount != 0
    ensures FabricOk(DoStep(m, CreateService(d)).fab) && AttemptsOk(DoStep(m, CreateService(d)))
  {
    hide SlotCoherent, HistoryRetired, IndexExact, AssignmentOk, ServicesOk;
    var ds := m.fab.world.services;
    if FindService(ds, d.service).None? {
      MoreServices(ds, d);
      StillKnown(ds, d);
      forall i | 0 <= i < |m.fab.ledger.slots| ensures SlotOk(ds + [d], m.fab.ledger.slots[i]) {
        assert SlotOk(ds, m.fab.ledger.slots[i]);
      }
    }
  }

  lemma InitialLedgerOk(ds: seq<ServiceDefinition>, l: Ledger, a: Assignment)
    requires LedgerOk(ds, l) && InitialAllowed(l, a) && KnownService(ds, a.slot.service)
    ensures LedgerOk(ds, SetInitialLedger(l, a))
  {
    hide KnownService;
    var n := SetInitialLedger(l, a);
    var i := if HasSlot(l, a.slot) then l.index[a.slot] else |l.slots|;
    if HasSlot(l, a.slot) {
      assert SlotOk(ds, l.slots[i]);
    }
    assert SlotOk(ds, n.slots[i]);
  }

  lemma InitialIndexed(l: Ledger, a: Assignment)
    requires IndexExact(l)
    ensures AllIndexed(l) ==> AllIndexed(SetInitialLedger(l, a))
    ensures forall k :: HasSlot(l, k) ==> HasSlot(SetInitialLedger(l, a), k)
  {
    hide Initial;
    var n := SetInitialLedger(l, a);
    if AllIndexed(l) {
      forall j | 0 <= j < |n.slots| ensures SlotIndexed(n, j) {
        if j < |l.slots| {
          assert SlotIndexed(l, j);
        }
      }
    }
  }

  lemma InitialStays(m: Machine, a: Assignment, now: int)
    requires FabricOk(m.fab) && AttemptsOk(m) && KnownService(m.fab.world.services, a.slot.service)
    ensures FabricOk(DoStep(m, SetInitial(a, now)).fab) && AttemptsOk(DoStep(m, SetInitial(a, now)))
  {
    hide LedgerOk, ServicesOk, KnownService, SetInitialLedger, PerformRoutes, PerformBook, AttemptOk;
    if InitialAllowed(m.fab.ledger, a) {
      InitialLedgerOk(m.fab.world.services, m.fab.ledger, a);
    }
  }

  lemma CommitLedgerOk(ds: seq<ServiceDefinition>, l: Ledger, a: Attempt)
    requires LedgerOk(ds, l) && AttemptOk(ds, a)
    ensures LedgerOk(ds, CommitLedger(l, a))
  {
    hide KnownService, AddFenced;
    var n := CommitLedger(l, a);
    if HasSlot(l, a.slot) {
      assert SlotOk(ds, l.slots[l.index[a.slot]]);
      CommittedSlotOk(ds, l.slots[l.index[a.slot]], a);
    } else {
      CommittedSlotOk(ds, SlotState(a.slot, None, []), a);
    }
  }

  lemma CommitIndexed(l: Ledger, a: Attempt)
    requires IndexExact(l)
    ensures AllIndexed(l) && HasSlot(l, a.slot) ==> AllIndexed(CommitLedger(l, a))
    ensures forall k :: HasSlot(l, k) ==> HasSlot(CommitLedger(l, a), k)
  {
    hide AddFenced, Retire, Activated;
    var n := CommitLedger(l, a);
    if AllIndexed(l) && HasSlot(l, a.slot) {
      forall j | 0 <= j < |n.slots| ensures SlotIndexed(n, j) {
        assert SlotIndexed(l, j);
      }
    }
  }

  lemma CommittedSlotOk(ds: seq<ServiceDefinition>, st: SlotState, a: Attempt)
    requires SlotOk(ds, st) && st.slot == a.slot && AttemptOk(ds, a)
    ensures SlotOk(ds, st.(current := Some(Activated(a)), history := Retire(st, a)))
  {
    hide KnownService;
  }

  lemma CommitStays(m: Machine, t: nat, now: int)
    requires FabricOk(m.fab) && AttemptsOk(m) && Commits(m, t, true)
    ensures FabricOk(VerifyStep(m, t, true, now).fab) && AttemptsOk(VerifyStep(m, t, true, now))
  {
    hide LedgerOk, ServicesOk, AttemptOk, HasSlot, CommitLedger, Supersedes;
    CommitLedgerOk(m.fab.world.services, m.fab.ledger, m.procs[t].attempt);
  }

  lemma CurrentIsOk(ds: seq<ServiceDefinition>, l: Ledger, k: SlotKey)
    requires LedgerOk(ds, l) && CurrentOf(l, k).Some?
    ensures CurrentOf(l, k).value.slot == k && AssignmentOk(ds, CurrentOf(l, k).value)
  {
    hide KnownService, HistoryRetired;
    assert SlotOk(ds, l.slots[l.index[k]]);
  }

  lemma ValidatedAttemptOk(f: Fabric, plan: Plan)
    requires FabricOk(f) && Validate(f, plan).Valid?
    ensures AttemptOk(f.world.services, Validate(f, plan).attempt)
  {
    hide Candidates, BuildContext, Eligible, LedgerOk, ServicesOk, HasSlot, CurrentOf, UsesCuda;
    var svc := FindService(f.world.services, plan.slot.service);
    if CurrentOf(f.ledger, plan.slot).Some? {
      CurrentIsOk(f.world.services, f.ledger, plan.slot);
    }
  }

  lemma BeginStays(m: Machine, t: nat, plan: Plan)
    requires FabricOk(m.fab) && AttemptsOk(m)
    ensures FabricOk(BeginStep(m, t, plan).fab) && AttemptsOk(BeginStep(m, t, plan))
  {
    hide Validate, AttemptOk, ServicesOk, LedgerOk;
    var n := BeginStep(m, t, plan);
    SameSlotsOk(m.fab.world.services, m.fab.ledger, n.fab.ledger);
    if Validate(m.fab, plan).Valid? {
      ValidatedAttemptOk(m.fab, plan);
    }
    forall u | u in n.procs ensures AttemptOk(n.fab.world.services, n.procs[u].attempt) {
      if u in m.procs {
        assert AttemptOk(m.fab.world.services, m.procs[u].attempt);
      }
    }
  }

  lemma SameSlotsOk(ds: seq<ServiceDefinition>, l: Ledger, n: Ledger)
    requires l.slots == n.slots && l.index == n.index && l.lastAuthority == n.lastAuthority
    ensures LedgerOk(ds, l) ==> LedgerOk(ds, n)
    ensures AllIndexed(l) ==> AllIndexed(n)
    ensures forall k :: HasSlot(l, k) <==> HasSlot(n, k)
  {
    hide SlotOk;
    if AllIndexed(l) {
      forall i | 0 <= i < |n.slots| ensures SlotIndexed(n, i) {
        assert SlotIndexed(l, i);
      }
    }
  }

  /** The rest of the steps leave services, slots and attempts alone; the transaction record they
      write is that of an attempt. */
  lemma OtherSteps(m: Machine, e: Event)
    requires !Loud(e) && !(e.Do? && e.op.CreateService?)
    ensures var n := Next(m, e);
            && n.fab.world.services == m.fab.world.services && n.fab.ledger.lastAuthority == m.fab.ledger.lastAuthority
            && (n.fab.txn == m.fab.txn ||
                exists t :: t in m.procs && n.fab.txn.pending == Some(m.procs[t].attempt.next))
  {
    hide DoStep, MarkStep, SaveStep, FenceStep, ActivateStep, RouteStep, InstallStep, SnapshotOf;
    match e {
      case Do(op) => OtherCalls(m, op);
      case Mark(t) => MarkFrame(m, t);
      case SaveNow =>
      case _ => SectionFrame(m, e);
    }
  }

  lemma OtherCalls(m: Machine, op: Op)
    requires !op.SetInitial? && !op.CreateService?
    ensures var n := DoStep(m, op);
            n.fab.world.services == m.fab.world.services && n.fab.ledger == m.fab.ledger && n.fab.txn == m.fab.txn
  {
    hide PerformRoutes, PerformBook, TargetRecordOf, FactsAccepted;
  }

  lemma MarkFrame(m: Machine, t: nat)
    ensures var n := MarkStep(m, t);
            && n.fab.world == m.fab.world && n.fab.ledger == m.fab.ledger
            && (n.fab.txn == m.fab.txn || (t in m.procs && n.fab.txn.pending == Some(m.procs[t].attempt.next)))
  {
  }

  lemma SectionFrame(m: Machine, e: Event)
    requires e.Save? || e.FenceReply? || e.ActivateReply? || e.BuildRoute? || e.RouteReply?
    ensures var n := Next(m, e);
            n.fab.world == m.fab.world && n.fab.ledger.lastAuthority == m.fab.ledger.lastAuthority
              && n.fab.txn == m.fab.txn
  {
    hide SnapshotOf, RouteFor, Install, AddFenced;
  }

  lemma OtherStays(m: Machine, e: Event)
    requires FabricOk(m.fab) && AttemptsOk(m) && !Loud(e) && !(e.Do? && e.op.CreateService?)
    ensures FabricOk(Next(m, e).fab) && AttemptsOk(Next(m, e))
  {
    hide Next, LedgerOk, ServicesOk, AssignmentOk;
    OtherSteps(m, e);
    QuietSteps(m, e);
    SameSlotsOk(m.fab.world.services, m.fab.ledger, Next(m, e).fab.ledger);
    forall t | t in Next(m, e).procs ensures AttemptOk(m.fab.world.services, Next(m, e).procs[t].attempt) {
      assert SameWork(m.procs[t], Next(m, e).procs[t]);
      assert AttemptOk(m.fab.world.services, m.procs[t].attempt);
    }
  }

  lemma VerifyStays(m: Machine, t: nat, verified: bool, now: int)
    requires FabricOk(m.fab) && AttemptsOk(m)
    ensures FabricOk(VerifyStep(m, t, verified, now).fab) && AttemptsOk(VerifyStep(m, t, verified, now))
  {
    if Commits(m, t, verified) {
      CommitStays(m, t, now);
    } else {
      hide CommitLedger, Supersedes, LedgerOk, ServicesOk, AttemptOk;
      assert VerifyStep(m, t, verified, now).fab.ledger == m.fab.ledger;
    }
  }

  /** Every proper step, on whatever slot, leaves nothing in the ledger that the decoder objects to
      by itself. */
  lemma ProperStepKeeps(m: Machine, e: Event)
    requires FabricOk(m.fab) && AttemptsOk(m) && Proper(m.fab, e)
    ensures FabricOk(Next(m, e).fab) && AttemptsOk(Next(m, e))
  {
    hide FabricOk, AttemptsOk, BeginStep, MarkStep, SaveStep, FenceStep, ActivateStep, RouteStep, InstallStep,
      VerifyStep, DoStep, SnapshotOf;
    match e {
      case Begin(t, plan) => BeginStays(m, t, plan);
      case VerifyReply(t, verified, now) => VerifyStays(m, t, verified, now);
      case Do(CreateService(d)) => CreateKeeps(m, d);
      case Do(SetInitial(a, now)) => InitialStays(m, a, now);
      case _ => OtherStays(m, e);
    }
  }

  lemma BeginIndexed(m: Machine, t: nat, plan: Plan)
    requires Indexed(m) && HasSlot(m.fab.ledger, plan.slot)
    ensures Indexed(BeginStep(m, t, plan))
  {
    hide BeginStep, Validate, HasSlot, AllIndexed, CurrentOf;
    var n := BeginStep(m, t, plan);
    BeginEffect(m, t, plan);
    SameSlotsOk([], m.fab.ledger, n.fab.ledger);
    if n.procs != m.procs {
      ValidAttempt(m.fab, plan);
    }
  }

  lemma VerifyIndexed(m: Machine, t: nat, verified: bool, now: int)
    requires IndexExact(m.fab.ledger) && Indexed(m)
    ensures Indexed(VerifyStep(m, t, verified, now))
  {
    hide HasSlot, AllIndexed, Supersedes, CommitLedger, VerifyStep, IndexExact;
    var n := VerifyStep(m, t, verified, now);
    if Commits(m, t, verified) {
      CommitEffect(m, t, now);
      CommitIndexed(m.fab.ledger, m.procs[t].attempt);
    } else {
      VerifyWithoutCommit(m, t, verified, now);
      QuietIndexed(m, n);
    }
  }

  lemma QuietIndexed(m: Machine, n: Machine)
    requires Indexed(m) && Quiet(m, n)
    ensures Indexed(n)
  {
    hide HasSlot, AllIndexed;
    SameSlotsOk([], m.fab.ledger, n.fab.ledger);
    forall t | t in n.procs ensures HasSlot(n.fab.ledger, n.procs[t].attempt.slot) {
      assert SameWork(m.procs[t], n.procs[t]);
    }
  }

  lemma InitialStaysIndexed(m: Machine, op: Op)
    requires IndexExact(m.fab.ledger) && Indexed(m) && op.SetInitial?
    ensures Indexed(DoStep(m, op))
  {
    hide HasSlot, AllIndexed, SetInitialLedger, PerformWorld, PerformRoutes, PerformBook, IndexExact;
    if InitialAllowed(m.fab.ledger, op.assignment) {
      InitialIndexed(m.fab.ledger, op.assignment);
    }
  }

  lemma VisibleStepKeeps(m: Machine, e: Event)
    requires IndexExact(m.fab.ledger) && Indexed(m) && Visible(m.fab, e)
    ensures Indexed(Next(m, e))
  {
    hide Indexed, BeginStep, VerifyStep, DoStep, Quiet, IndexExact;
    if !Loud(e) {
      QuietSteps(m, e);
      QuietIndexed(m, Next(m, e));
    } else {
      match e {
        case Begin(t, plan) => BeginIndexed(m, t, plan);
        case VerifyReply(t, verified, now) => VerifyIndexed(m, t, verified, now);
        case Do(op) => InitialStaysIndexed(m, op);
      }
    }
  }

  // ----- across restarts -------------------------------------------------------------

  ghost predicate DiskOk(s: Snapshot) {
    SemanticallyValid(s) && PendingAuthorized(s) && s.lastAuthorityGen != 0
  }

  lemma LoadStepOk(ds: seq<ServiceDefinition>, l: Ledger, a: Assignment)
    requires LedgerOk(ds, l) && AllIndexed(l) && AssignmentOk(ds, a)
    ensures LedgerOk(ds, LoadAssignment(l, a)) && AllIndexed(LoadAssignment(l, a))
  {
    hide KnownService;
    var n := LoadAssignment(l, a);
    var i := Opened(l, a.slot).index[a.slot];
    if HasSlot(l, a.slot) {
      assert SlotIndexed(l, i) && SlotOk(ds, l.slots[i]);
    }
    assert SlotOk(ds, n.slots[i]);
    forall j | 0 <= j < |n.slots| ensures SlotIndexed(n, j) && SlotOk(ds, n.slots[j]) {
      if j < |l.slots| {
        assert SlotIndexed(l, j) && SlotOk(ds, l.slots[j]);
      }
    }
  }

  lemma {:induction false} LoadAllOk(ds: seq<ServiceDefinition>, l: Ledger, xs: seq<Assignment>)
    requires LedgerOk(ds, l) && AllIndexed(l) && forall i :: 0 <= i < |xs| ==> AssignmentOk(ds, xs[i])
    ensures LedgerOk(ds, LoadAssignments(l, xs)) && AllIndexed(LoadAssignments(l, xs))
    decreases |xs|
  {
    hide LedgerOk, AllIndexed, AssignmentOk, LoadAssignment;
    if xs != [] {
      LoadStepOk(ds, l, xs[0]);
      LoadAllOk(ds, LoadAssignment(l, xs[0]), xs[1..]);
    }
  }

  lemma ReconcileOk(ds: seq<ServiceDefinition>, l: Ledger, t: Txn)
    requires LedgerOk(ds, l) && AllIndexed(l)
    ensures var n := l.(slots := ReconcileAll(l.slots, l.fenced, t)); LedgerOk(ds, n) && AllIndexed(n)
  {
    hide KnownService;
    var n := l.(slots := ReconcileAll(l.slots, l.fenced, t));
    forall i | 0 <= i < |n.slots| ensures SlotIndexed(n, i) && SlotOk(ds, n.slots[i]) {
      assert SlotIndexed(l, i) && SlotOk(ds, l.slots[i]);
    }
  }

  /** A loaded coordinator is as good as the one that saved. */
  lemma ReloadOk(s: Snapshot)
    requires DiskOk(s)
    ensures FabricOk(Reload(s)) && AllIndexed(Reload(s).ledger)
  {
    hide LedgerOk, AllIndexed, KnownService, DistinctServices, OneActivePerSlot, LoadAssignments, ReconcileAll,
      InstallAll, MarkRevalidation;
    var z := Normalize(s);
    var start := Ledger([], map[], z.fencedBoots, z.epoch, z.lastAuthorityGen, 0);
    EmptyLedgerOk(z.services, start);
    LoadAllOk(z.services, start, z.assignments);
    var base := LoadAssignments(start, z.assignments);
    LoadAssignmentsFrame(start, z.assignments);
    ReconcileOk(z.services, base, TxnOf(z));
    SameSlotsOk(z.services, LoadLedger(z), Reload(s).ledger);
  }

  lemma EmptyLedgerOk(ds: seq<ServiceDefinition>, l: Ledger)
    requires l.slots == [] && l.index == map[] && l.lastAuthority != 0
    ensures LedgerOk(ds, l) && AllIndexed(l)
  {
  }

  ghost predicate ReadableMachine(m: Machine) {
    FabricOk(m.fab) && AttemptsOk(m) && Indexed(m) && (m.disk.Some? ==> DiskOk(m.disk.value))
  }

  lemma FreshIsReadable(epoch: u64, checkpointing: bool)
    ensures ReadableMachine(Start(WithEpoch(FRESH, epoch), None, checkpointing))
  {
  }

  lemma IncarnationIsReadable(s: Snapshot)
    requires DiskOk(s)
    ensures ReadableMachine(Incarnation(s))
  {
    hide FabricOk, AllIndexed, Reload, View;
    ReloadOk(s);
  }

  /** A run in which every step is proper and no attempt begins on a slot that was never assigned. */
  ghost predicate PreparedRun(m: Machine, xs: seq<Action>)
    decreases |xs|
  {
    xs == [] ||
    ((xs[0].Step? ==> Proper(m.fab, xs[0].event) && Visible(m.fab, xs[0].event)) && PreparedRun(Act(m, xs[0]), xs[1..]))
  }

  lemma DiskStep(m: Machine, e: Event)
    ensures Next(m, e).disk == m.disk || Next(m, e).disk == Some(SnapshotOf(m.fab))
  {
    hide Perform, SnapshotOf, RouteFor, InstallSection, CommitSection, FenceSection, BeginSection, Validate, MarkTxn;
  }

  lemma SavesAreGood(f: Fabric)
    requires FabricOk(f) && AllIndexed(f.ledger)
    ensures DiskOk(SnapshotOf(f))
  {
    hide SemanticallyValid, PendingAuthorized, ServicesOk, AssignmentsOf, AllRoutes, AllIndexed;
    FabricIsReadable(f);
  }

  lemma PreparedStepKeeps(m: Machine, e: Event)
    requires ReadableMachine(m) && Proper(m.fab, e) && Visible(m.fab, e)
    ensures ReadableMachine(Next(m, e))
  {
    hide AttemptsOk, AllIndexed, DiskOk, Proper, Visible, Next, SnapshotOf, ServicesOk, TxnOk;
    ProperStepKeeps(m, e);
    VisibleStepKeeps(m, e);
    DiskStep(m, e);
    SavesAreGood(m.fab);
  }

  lemma {:induction false} ReadableOverRuns(m: Machine, xs: seq<Action>)
    requires ReadableMachine(m) && PreparedRun(m, xs)
    ensures ReadableMachine(ActAll(m, xs))
    decreases |xs|
  {
    hide FabricOk, AttemptsOk, Indexed, DiskOk, Proper, Visible, Next, Incarnation;
    if xs != [] {
      match xs[0] {
        case Step(e) => PreparedStepKeeps(m, e);
        case Crash =>
          if m.disk.Some? {
            IncarnationIsReadable(m.disk.value);
          }
      }
      ReadableOverRuns(Act(m, xs[0]), xs[1..]);
    }
  }

  /** In every state of every prepared run of a coordinator that started fresh, through any number of
      crashes and restarts, what `save` writes is what `load` reads back if and only if it is within
      the size limits. */
  lemma EverySaveIsReadable(epoch: u64, checkpointing: bool, xs: seq<Action>)
    requires PreparedRun(Start(WithEpoch(FRESH, epoch), None, checkpointing), xs)
    ensures var s := SnapshotOf(ActAll(Start(WithEpoch(FRESH, epoch), None, checkpointing), xs).fab);
            && (Fits(s) ==> Encode(s).Success?)
            && (Encode(s).Success? ==>
                 (Decode(Encode(s).value) == Success(Normalize(s)) <==> Fits(s) && |PutPayload(s, [])| <= MAX_BLOB))
  {
    hide ActAll, PreparedRun, PutPayload, Encode, Decode, Fits, SemanticallyValid, PendingAuthorized, AssignmentsOf,
      AllRoutes, FabricOk, AttemptsOk, AllIndexed, DiskOk, Start;
    var m := Start(WithEpoch(FRESH, epoch), None, checkpointing);
    FreshIsReadable(epoch, checkpointing);
    ReadableOverRuns(m, xs);
    var f := ActAll(m, xs).fab;
    FabricIsReadable(f);
    RoundTrip(SnapshotOf(f));
  }

  // ----- where saving stops ----------------------------------------------------------

  /** Creating a service leaves the record readable if and only if the service has slots (or is
      refused as a duplicate). */
  lemma CreateReadableIff(f: Fabric, d: ServiceDefinition)
    requires FabricOk(f) && AllIndexed(f.ledger)
    ensures SemanticallyValid(SnapshotOf(Perform(f, CreateService(d)))) <==>
            d.slotsCount != 0 || FindService(f.world.services, d.service).Some?
  {
    hide LedgerOk, AllIndexed, DistinctServices, KnownService, OneActivePerSlot, AssignmentsOf, AllRoutes;
    var g := Perform(f, CreateService(d));
    if FindService(f.world.services, d.service).Some? {
      assert g == f;
      FabricIsReadable(f);
    } else if d.slotsCount != 0 {
      CreateKeeps(Start(f, None, false), d);
      FabricIsReadable(g);
    } else {
      assert g.world.services[|f.world.services|] == d;
    }
  }

  lemma {:induction false} SavedMember(slots: seq<SlotState>, i: nat, a: Assignment)
    requires i < |slots| && a in SlotAssignments(slots[i])
    ensures a in AssignmentsOf(slots)
  {
    if i > 0 {
      SavedMember(slots[1..], i - 1, a);
    }
  }

  /** An accepted initial assignment leaves the record readable if and only if its service exists. */
  lemma InitialReadableIff(f: Fabric, a: Assignment, now: int)
    requires FabricOk(f) && AllIndexed(f.ledger)
    ensures SemanticallyValid(SnapshotOf(Perform(f, SetInitial(a, now)))) <==>
            KnownService(f.world.services, a.slot.service) || !InitialAllowed(f.ledger, a)
  {
    hide LedgerOk, AllIndexed, ServicesOk, DistinctServices, KnownService, OneActivePerSlot, AssignmentsOf, AllRoutes,
      PerformBook, PerformRoutes, CurrentOf;
    var g := Perform(f, SetInitial(a, now));
    if !InitialAllowed(f.ledger, a) {
      FabricIsReadable(g);
    } else if KnownService(f.world.services, a.slot.service) {
      InitialLedgerOk(f.world.services, f.ledger, a);
      IndexedAfterInitial(f.world.services, f.ledger, a);
      FabricIsReadable(g);
    } else {
      var i := if HasSlot(f.ledger, a.slot) then f.ledger.index[a.slot] else |f.ledger.slots|;
      var x := Initial(f.ledger, a);
      assert g.ledger.slots[i].current == Some(x);
      SavedMember(g.ledger.slots, i, x);
      var xs := SnapshotOf(g).assignments;
      var j :| 0 <= j < |xs| && xs[j] == x;
    }
  }

  lemma IndexedAfterInitial(ds: seq<ServiceDefinition>, l: Ledger, a: Assignment)
    requires LedgerOk(ds, l) && AllIndexed(l)
    ensures AllIndexed(SetInitialLedger(l, a))
  {
    hide AllIndexed, SetInitialLedger, SlotOk;
    InitialIndexed(l, a);
  }
}
