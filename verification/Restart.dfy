/** Crashes and restarts: an incarnation loads the last checkpoint, advances the epoch and goes on.
    Every crash point of an attempt comes back closed, and no authorization outlives the
    incarnation that accepted it. */
module Restart {
  import opened Types
  import opened Routing
  import opened Fabric
  import opened Operations
  import opened Durable
  import opened Persistence
  import opened Cutover
  import opened Authority

  // ----- crash points of one attempt -------------------------------------------------

  /** The first checkpoint of the attempt has been written. */
  predicate Checkpointed(pc: Pc) {
    pc != ToMark(IntentOnly) && pc != ToSave(IntentOnly) && pc != Thrown(IntentOnly)
  }

  predicate SourceFenced(fenced: seq<u64>, a: Attempt) {
    a.source.Some? && a.source.value.workerBoot != 0 ==> a.source.value.workerBoot in fenced
  }

  /** The attempt has passed its fencing section. */
  predicate PastFence(pc: Pc) {
    match pc
    case ToMark(m) => !m.IntentOnly?
    case ToSave(m) => !m.IntentOnly?
    case Thrown(m) => !m.IntentOnly?
    case ToFence => false
    case Ended(_) => false
    case _ => true
  }

  ghost predicate Recorded(t: Txn, fenced: seq<u64>, a: Attempt) {
    && t.has && t.pending == Some(a.next) && t.source == a.source
    && MilestoneRank(t.milestone) < MilestoneRank(VerificationComplete)
    && (MilestoneRank(t.milestone) >= MilestoneRank(OldAdmissionFenced) ==> SourceFenced(fenced, a))
  }

  /** What holds of an attempt that runs alone, in every phase. */
  ghost predicate InFlight(m: Machine, t: nat, a: Attempt) {
    && t in m.procs && m.procs[t].attempt == a && m.checkpointing
    && var p := m.procs[t];
    && (PastFence(p.pc) ==> SourceFenced(m.fab.ledger.fenced, a))
    && (p.pc.ToMark? || p.pc.ToSave? ==> MilestoneRank(p.pc.milestone) < MilestoneRank(VerificationComplete))
    && (p.pc != ToMark(IntentOnly) && p.pc != Ended(Completed) ==> Recorded(m.fab.txn, m.fab.ledger.fenced, a))
    && (Checkpointed(p.pc) ==>
          m.disk.Some? && Recorded(TxnOf(m.disk.value), m.disk.value.fencedBoots, a))
  }

  /** The event belongs to attempt `t`, or is another call of the facade; an operator's save comes
      before the commit, which itself is not checkpointed. */
  predicate Alone(m: Machine, t: nat, e: Event) {
    match e
    case Begin(_, _) => false
    case Do(_) => true
    case SaveNow => !At(m, t, Ended(Completed))
    case _ => e.tid == t
  }

  predicate AloneRun(m: Machine, t: nat, es: seq<Event>)
    decreases |es|
  {
    es == [] || (Alone(m, t, es[0]) && AloneRun(Next(m, es[0]), t, es[1..]))
  }

  lemma MarkInFlight(m: Machine, t: nat, a: Attempt)
    requires InFlight(m, t, a)
    ensures InFlight(MarkStep(m, t), t, a)
  {
  }

  lemma SaveInFlight(m: Machine, t: nat, a: Attempt, ok: bool)
    requires InFlight(m, t, a)
    ensures InFlight(SaveStep(m, t, ok), t, a)
  {
    hide AssignmentsOf, AllRoutes;
  }

  lemma FenceInFlight(m: Machine, t: nat, a: Attempt, applied: bool, unproven: bool)
    requires InFlight(m, t, a)
    ensures InFlight(FenceStep(m, t, applied, unproven), t, a)
  {
  }

  lemma RepliesInFlight(m: Machine, t: nat, a: Attempt, yes: bool)
    requires InFlight(m, t, a)
    ensures InFlight(ActivateStep(m, t, yes), t, a) && InFlight(RouteStep(m, t), t, a)
            && InFlight(InstallStep(m, t, yes), t, a)
  {
    hide RouteFor, Install;
  }

  lemma VerifyInFlight(m: Machine, t: nat, a: Attempt, verified: bool, now: int)
    requires InFlight(m, t, a)
    ensures InFlight(VerifyStep(m, t, verified, now), t, a)
  {
    hide CommitSlots, Supersedes;
  }

  lemma CallInFlight(m: Machine, t: nat, a: Attempt, op: Op)
    requires InFlight(m, t, a)
    ensures InFlight(DoStep(m, op), t, a)
  {
    hide PerformWorld, PerformRoutes, PerformBook, Initial, InitialAllowed, Recorded, SourceFenced;
  }

  lemma StepInFlight(m: Machine, t: nat, a: Attempt, e: Event)
    requires InFlight(m, t, a) && Alone(m, t, e)
    ensures InFlight(Next(m, e), t, a)
  {
    match e {
      case Do(op) =>
        hide InFlight, DoStep;
        CallInFlight(m, t, a, op);
      case SaveNow =>
        hide AssignmentsOf, AllRoutes;
      case _ =>
        hide InFlight, MarkStep, SaveStep, FenceStep, ActivateStep, RouteStep, InstallStep, VerifyStep;
        AttemptInFlight(m, t, a, e);
    }
  }

  lemma AttemptInFlight(m: Machine, t: nat, a: Attempt, e: Event)
    requires InFlight(m, t, a) && !e.Begin? && !e.Do? && !e.SaveNow? && e.tid == t
    ensures InFlight(Next(m, e), t, a)
  {
    hide InFlight, MarkStep, SaveStep, FenceStep, ActivateStep, RouteStep, InstallStep, VerifyStep;
    match e {
      case Mark(_) => MarkInFlight(m, t, a);
      case Save(_, ok) => SaveInFlight(m, t, a, ok);
      case FenceReply(_, applied, unproven) => FenceInFlight(m, t, a, applied, unproven);
      case ActivateReply(_, yes) => RepliesInFlight(m, t, a, yes);
      case BuildRoute(_) => RepliesInFlight(m, t, a, true);
      case RouteReply(_, yes) => RepliesInFlight(m, t, a, yes);
      case VerifyReply(_, verified, now) => VerifyInFlight(m, t, a, verified, now);
    }
  }

  lemma {:induction false} RunInFlight(m: Machine, t: nat, a: Attempt, es: seq<Event>)
    requires InFlight(m, t, a) && AloneRun(m, t, es)
    ensures InFlight(Run(m, es), t, a)
    decreases |es|
  {
    hide InFlight, Next, Alone;
    if es != [] {
      StepInFlight(m, t, a, es[0]);
      RunInFlight(Next(m, es[0]), t, a, es[1..]);
    }
  }

  /** Until it commits, the attempt's source stays current on its slot, and so it is listed in the
      record. */
  ghost predicate Holding(m: Machine, t: nat, a: Attempt) {
    && t in m.procs && m.procs[t].attempt == a
    && (m.procs[t].pc != Ended(Completed) ==>
        Orderly(m.fab.ledger, a.slot) && CurrentOf(m.fab.ledger, a.slot) == a.source)
    && (Checkpointed(m.procs[t].pc) ==>
        m.disk.Some? && LastActive(m.disk.value.assignments, a.slot) == ActiveOnly(a.source))
  }

  lemma SameSlotsOrderly(l: Ledger, n: Ledger, k: SlotKey)
    requires Orderly(l, k) && l.slots == n.slots && l.index == n.index
    ensures Orderly(n, k) && CurrentOf(n, k) == CurrentOf(l, k)
  {
    hide NeverNames, HistoryRetired;
  }

  lemma SavedListing(f: Fabric, k: SlotKey)
    requires Orderly(f.ledger, k)
    ensures LastActive(SnapshotOf(f).assignments, k) == ActiveOnly(CurrentOf(f.ledger, k))
  {
    hide Orderly, LastActive, AssignmentsOf, AllRoutes, CurrentOf;
    OrderlyListed(f.ledger, k);
  }

  /** A step of the attempt that neither saves nor commits. */
  lemma MoveHolding(m: Machine, n: Machine, t: nat, a: Attempt)
    requires Holding(m, t, a) && Quiet(m, n) && n.disk == m.disk && t in n.procs
    requires m.procs[t].pc == Ended(Completed) ==> n.procs[t].pc == Ended(Completed)
    requires Checkpointed(n.procs[t].pc) ==> Checkpointed(m.procs[t].pc)
    ensures Holding(n, t, a)
  {
    hide Orderly, CurrentOf, LastActive, Checkpointed;
    assert SameWork(m.procs[t], n.procs[t]);
    if m.procs[t].pc != Ended(Completed) {
      SameSlotsOrderly(m.fab.ledger, n.fab.ledger, a.slot);
    }
  }

  lemma SaveHolding(m: Machine, t: nat, a: Attempt, ok: bool)
    requires Holding(m, t, a) && m.checkpointing
    ensures Holding(SaveStep(m, t, ok), t, a)
  {
    hide Orderly, CurrentOf, LastActive, SnapshotOf;
    if m.procs[t].pc.ToSave? {
      SavedListing(m.fab, a.slot);
    }
  }

  lemma InitialHolding(m: Machine, t: nat, a: Attempt, x: Assignment, now: int)
    requires Holding(m, t, a) && a.source.Some?
    ensures Holding(DoStep(m, SetInitial(x, now)), t, a)
  {
    hide LastActive, PerformWorld, PerformRoutes, PerformBook, Checkpointed;
    var n := DoStep(m, SetInitial(x, now));
    if m.procs[t].pc != Ended(Completed) {
      if InitialAllowed(m.fab.ledger, x) {
        InitialOrderly(m.fab.ledger, x, a.slot);
      }
    }
  }

  lemma InitialOrderly(l: Ledger, x: Assignment, k: SlotKey)
    requires Orderly(l, k) && CurrentOf(l, k).Some? && InitialAllowed(l, x)
    ensures Orderly(SetInitialLedger(l, x), k) && CurrentOf(SetInitialLedger(l, x), k) == CurrentOf(l, k)
  {
    hide HistoryRetired;
    var n := SetInitialLedger(l, x);
    assert x.slot != k;
    forall i | 0 <= i < |n.slots| && i != n.index[k] ensures NeverNames(n.slots[i], k) {
      if i < |l.slots| {
        assert NeverNames(l.slots[i], k);
      }
    }
  }

  lemma VerifyHolding(m: Machine, t: nat, a: Attempt, verified: bool, now: int)
    requires Holding(m, t, a)
    ensures Holding(VerifyStep(m, t, verified, now), t, a)
  {
    hide Orderly, LastActive, CommitSlots, Supersedes;
  }

  lemma AttemptMoves(m: Machine, t: nat, e: Event)
    requires t in m.procs && !e.Do? && !e.SaveNow? && !e.Save? && !Loud(e) && e.tid == t
    ensures var n := Next(m, e);
            && n.disk == m.disk && t in n.procs
            && (m.procs[t].pc == Ended(Completed) ==> n.procs[t].pc == Ended(Completed))
            && (Checkpointed(n.procs[t].pc) ==> Checkpointed(m.procs[t].pc))
  {
    hide FenceSection, InstallSection, RouteFor, MarkTxn, SnapshotOf, Note;
  }

  lemma StepHolding(m: Machine, t: nat, a: Attempt, e: Event)
    requires Holding(m, t, a) && m.checkpointing && a.source.Some? && Alone(m, t, e)
    ensures Holding(Next(m, e), t, a)
  {
    match e {
      case Do(op) =>
        hide Holding, DoStep;
        if op.SetInitial? {
          InitialHolding(m, t, a, op.assignment, op.now);
        } else {
          CallHolding(m, t, a, op);
        }
      case SaveNow =>
        hide SnapshotOf, Orderly, LastActive;
        SavedListing(m.fab, a.slot);
      case Save(_, ok) =>
        hide Holding, SaveStep;
        SaveHolding(m, t, a, ok);
      case VerifyReply(_, verified, now) =>
        hide Holding, VerifyStep;
        VerifyHolding(m, t, a, verified, now);
      case _ =>
        hide Next, Holding, Quiet;
        QuietSteps(m, e);
        AttemptMoves(m, t, e);
        MoveHolding(m, Next(m, e), t, a);
    }
  }

  lemma CallHolding(m: Machine, t: nat, a: Attempt, op: Op)
    requires Holding(m, t, a) && !op.SetInitial?
    ensures Holding(DoStep(m, op), t, a)
  {
    hide Orderly, LastActive, CurrentOf, PerformWorld, PerformRoutes, PerformBook;
  }

  lemma {:induction false} RunHolding(m: Machine, t: nat, a: Attempt, es: seq<Event>)
    requires Holding(m, t, a) && m.checkpointing && a.source.Some? && AloneRun(m, t, es)
    ensures Holding(Run(m, es), t, a)
    decreases |es|
  {
    hide Holding, Next, Alone;
    if es != [] {
      StepHolding(m, t, a, es[0]);
      CheckpointingStays(m, es[0]);
      RunHolding(Next(m, es[0]), t, a, es[1..]);
    }
  }

  lemma BeginHolding(m: Machine, t: nat, plan: Plan)
    requires m.checkpointing && t !in m.procs && Validate(m.fab, plan).Valid? && Orderly(m.fab.ledger, plan.slot)
    ensures Holding(BeginStep(m, t, plan), t, Validate(m.fab, plan).attempt) && BeginStep(m, t, plan).checkpointing
  {
    hide Validate, Orderly, CurrentOf, LastActive;
    ValidAttempt(m.fab, plan);
    SameSlotsOrderly(m.fab.ledger, BeginStep(m, t, plan).fab.ledger, plan.slot);
  }

  lemma BeginInFlight(m: Machine, t: nat, plan: Plan)
    requires m.checkpointing && t !in m.procs && Validate(m.fab, plan).Valid?
    ensures InFlight(BeginStep(m, t, plan), t, Validate(m.fab, plan).attempt)
  {
    hide Validate;
  }

  /** Who is current on slot `k` once a record has been loaded. */
  function LoadedHolder(s: Snapshot, k: SlotKey): Option<Assignment> {
    CurrentOf(Load(s).ledger, k)
  }

  /** The assignment awaits revalidation. */
  function Suspended(a: Option<Assignment>): Option<Assignment> {
    if a.Some? then Some(a.value.(state := NeedsRevalidation)) else None
  }

  /** For every crash point after the first checkpoint of an attempt that runs alone, up to and
      including the unsaved commit, loading the last checkpoint comes back closed. On every slot it
      makes current only what the record lists as active there, awaiting revalidation; on the slot
      of the attempt that is the very assignment that was being replaced. The gate refuses
      everything, and the (non-null) boot that was being replaced is fenced if the fencing milestone
      was reached. */
  lemma EveryCrashPointLoadsClosed(m: Machine, t: nat, plan: Plan, es: seq<Event>, auth: Authorization, k: SlotKey)
    requires m.checkpointing && t !in m.procs && Validate(m.fab, plan).Valid?
    requires AloneRun(BeginStep(m, t, plan), t, es)
    requires var n := Run(BeginStep(m, t, plan), es); t in n.procs && Checkpointed(n.procs[t].pc)
    ensures var n := Run(BeginStep(m, t, plan), es);
            var a := Validate(m.fab, plan).attempt;
            && n.disk.Some?
            && var s := n.disk.value;
            && Normalize(s) == s && s.hasTxn && s.pendingAssignment == Some(a.next) && s.sourceAssignment == a.source
            && LoadedHolder(s, k) == Suspended(LastActive(s.assignments, k))
            && (a.source.Some? && Orderly(m.fab.ledger, a.slot) ==>
                LoadedHolder(s, a.slot) == Suspended(ActiveOnly(a.source)))
            && !Accepts(Load(s), auth) && !Accepts(Boot(s), auth)
            && (MilestoneRank(s.txnMilestone) >= MilestoneRank(OldAdmissionFenced) ==>
                SourceFenced(Load(s).ledger.fenced, a))
  {
    hide Run, AloneRun, Validate, BeginStep, CurrentOf, Accepts, LoadLedger, LoadWorld, InstallAll, MarkRevalidation,
      LastActive, Orderly;
    var a := Validate(m.fab, plan).attempt;
    var b := BeginStep(m, t, plan);
    BeginInFlight(m, t, plan);
    RunInFlight(b, t, a, es);
    var s := Run(b, es).disk.value;
    LoadFrame(s);
    InterruptedCutoverLoadsClosed(s, auth, k);
    InterruptedCutoverLoadsClosed(s, auth, a.slot);
    if a.source.Some? && Orderly(m.fab.ledger, a.slot) {
      ValidAttempt(m.fab, plan);
      BeginHolding(m, t, plan);
      RunHolding(b, t, a, es);
    }
  }

  // ----- incarnations ----------------------------------------------------------------

  datatype Action = Step(event: Event) | Crash

  /** What a restart sees: a snapshot passes through its blob, which drops the fields of an
      unrecorded transaction. */
  function Reload(s: Snapshot): Fabric {
    Boot(Normalize(s))
  }

  function Incarnation(s: Snapshot): Machine {
    Start(Reload(s), Some(s), true)
  }

  function Act(m: Machine, x: Action): Machine {
    match x
    case Step(e) => Next(m, e)
    case Crash => if m.disk.None? then m else Incarnation(m.disk.value)
  }

  function ActAll(m: Machine, xs: seq<Action>): Machine
    decreases |xs|
  {
    if xs == [] then m else ActAll(Act(m, xs[0]), xs[1..])
  }

  function Crashes(xs: seq<Action>): nat {
    if xs == [] then 0 else (if xs[0].Crash? then 1 else 0) + Crashes(xs[1..])
  }

  /** This incarnation has written its own epoch. */
  predicate Saved(m: Machine) {
    m.disk.Some? && m.disk.value.epoch == m.fab.ledger.epoch
  }

  lemma EpochStays(m: Machine, e: Event)
    ensures Next(m, e).fab.ledger.epoch == m.fab.ledger.epoch
    ensures Next(m, e).disk == m.disk || (Saved(Next(m, e)) && (e.Save? || e.SaveNow?))
  {
    hide BeginStep, SaveStep, VerifyStep, DoStep;
    match e {
      case Do(op) => EpochCall(m, op);
      case Begin(t, plan) => EpochBegin(m, t, plan);
      case Save(t, ok) => EpochSave(m, t, ok);
      case SaveNow => hide AssignmentsOf, AllRoutes;
      case VerifyReply(t, verified, now) => EpochVerify(m, t, verified, now);
      case _ => hide RouteFor, Install, AddFenced, SnapshotOf;
    }
  }

  lemma EpochCall(m: Machine, op: Op)
    ensures DoStep(m, op).fab.ledger.epoch == m.fab.ledger.epoch && DoStep(m, op).disk == m.disk
  {
    hide PerformWorld, PerformRoutes, PerformBook, Initial, InitialAllowed;
  }

  lemma EpochBegin(m: Machine, t: nat, plan: Plan)
    ensures BeginStep(m, t, plan).fab.ledger.epoch == m.fab.ledger.epoch && BeginStep(m, t, plan).disk == m.disk
  {
    hide Validate;
  }

  lemma EpochSave(m: Machine, t: nat, ok: bool)
    ensures SaveStep(m, t, ok).fab == m.fab && (SaveStep(m, t, ok).disk == m.disk || Saved(SaveStep(m, t, ok)))
  {
    hide AssignmentsOf, AllRoutes;
  }

  lemma EpochVerify(m: Machine, t: nat, verified: bool, now: int)
    ensures VerifyStep(m, t, verified, now).fab.ledger.epoch == m.fab.ledger.epoch
            && VerifyStep(m, t, verified, now).disk == m.disk
  {
    hide CommitSlots, AddFenced, Supersedes, Extend, CurrentOf, HasSlot;
  }

  // ----- within one incarnation ------------------------------------------------------

  /** The attempt is on its way and has written its first checkpoint. */
  predicate PastIntent(pc: Pc) {
    !pc.Ended? && !pc.Thrown? && pc != ToMark(IntentOnly) && pc != ToSave(IntentOnly)
  }

  /** Until an incarnation has saved, the routes it was loaded with stay blocked. */
  ghost predicate Confined(m: Machine, s: Snapshot, k: SlotKey) {
    && m.checkpointing && m.fab.ledger.epoch == Reload(s).ledger.epoch
    && (m.disk == Some(s) || Saved(m))
    && (Saved(m) || RouteBlocks(m.fab.routes, k))
    && (Saved(m) || forall t :: t in m.procs ==> !PastIntent(m.procs[t].pc))
  }

  /** No route of slot `k` is installed past the attempts. */
  predicate Elsewhere(e: Event, k: SlotKey) {
    e.Do? && e.op.InstallRoute? ==> e.op.entry.slot != k
  }

  lemma BlockedAfterCall(f: Fabric, op: Op, k: SlotKey)
    requires RouteBlocks(f.routes, k) && Elsewhere(Do(op), k)
    ensures RouteBlocks(PerformRoutes(f, op), k)
  {
    match op {
      case InstallRoute(e, boot) =>
        if e.epoch == f.ledger.epoch {
          InstallElsewhere(f.routes, e.(state := Acknowledged, gatewayBoot := boot), k);
        }
      case BindRouteGateway(slot, boot) => BindKeepsBlocked(f.routes, slot, boot, k);
      case MarkRoutesRevalidation => MarkedIsBlocked(f.routes, k);
      case _ =>
    }
  }

  lemma InstallElsewhere(rs: Routes, e: RouteEntry, k: SlotKey)
    requires e.slot != k
    ensures CurrentRoute(Install(rs, e), k) == CurrentRoute(rs, k)
  {
    SameFirst(rs, Install(rs, e), k);
  }

  /** Looking up a slot only depends on the entries of that slot. */
  lemma SameFirst(rs: Routes, ns: Routes, k: SlotKey)
    requires |rs| <= |ns| && (forall i :: 0 <= i < |rs| ==> (rs[i].current.slot == k <==> ns[i].current.slot == k))
    requires forall i :: |rs| <= i < |ns| ==> ns[i].current.slot != k
    ensures FindRoute(rs, k) == FindRoute(ns, k)
  {
    var a, b := FindRoute(rs, k), FindRoute(ns, k);
    if a.Some? && b.Some? {
      assert a.value == b.value;
    }
  }

  lemma BindKeepsBlocked(rs: Routes, slot: SlotKey, boot: u64, k: SlotKey)
    requires RouteBlocks(rs, k)
    ensures RouteBlocks(BindGateway(rs, slot, boot), k)
  {
    SameFirst(rs, BindGateway(rs, slot, boot), k);
  }

  lemma MarkedIsBlocked(rs: Routes, k: SlotKey)
    requires CurrentRoute(rs, k).Some?
    ensures RouteBlocks(MarkRevalidation(rs), k)
  {
    SameFirst(rs, MarkRevalidation(rs), k);
  }

  lemma StepConfined(m: Machine, s: Snapshot, k: SlotKey, e: Event)
    requires Confined(m, s, k) && Elsewhere(e, k)
    ensures Confined(Next(m, e), s, k)
  {
    hide Reload;
    EpochStays(m, e);
    CheckpointingStays(m, e);
    if !Saved(m) && !Saved(Next(m, e)) {
      hide Next;
      UnsavedStep(m, k, e);
    } else {
      hide Next;
    }
  }

  lemma CheckpointingStays(m: Machine, e: Event)
    ensures Next(m, e).checkpointing == m.checkpointing
  {
    hide Perform, SnapshotOf, RouteFor, InstallSection, CommitSection, FenceSection, BeginSection, Validate, MarkTxn;
  }

  lemma UnsavedStep(m: Machine, k: SlotKey, e: Event)
    requires m.checkpointing && Elsewhere(e, k) && RouteBlocks(m.fab.routes, k) && !Saved(Next(m, e))
    requires forall t :: t in m.procs ==> !PastIntent(m.procs[t].pc)
    ensures RouteBlocks(Next(m, e).fab.routes, k)
    ensures forall t :: t in Next(m, e).procs ==> !PastIntent(Next(m, e).procs[t].pc)
  {
    match e {
      case Do(op) =>
        hide PerformWorld, PerformBook, PerformRoutes, Initial, InitialAllowed, RouteBlocks;
        BlockedAfterCall(m.fab, op, k);
      case Begin(t, plan) =>
        hide Validate, RouteBlocks;
      case Save(t, ok) =>
        hide AssignmentsOf, AllRoutes, RouteBlocks;
      case Mark(t) =>
        hide RouteBlocks;
      case SaveNow =>
        hide AssignmentsOf, AllRoutes, RouteBlocks;
      case _ =>
        hide RouteBlocks;
        NotReached(m, e);
    }
  }

  /** Later sections are not enabled before the first checkpoint. */
  lemma NotReached(m: Machine, e: Event)
    requires e.FenceReply? || e.ActivateReply? || e.BuildRoute? || e.RouteReply? || e.VerifyReply?
    requires forall t :: t in m.procs ==> !PastIntent(m.procs[t].pc)
    ensures Next(m, e) == m
  {
    hide FenceSection, InstallSection, CommitSection, RouteFor;
    if e.tid in m.procs {
      assert !PastIntent(m.procs[e.tid].pc);
    }
  }

  ghost predicate ElsewhereRun(es: seq<Event>, k: SlotKey) {
    forall i :: 0 <= i < |es| ==> Elsewhere(es[i], k)
  }

  lemma {:induction false} RunConfined(m: Machine, s: Snapshot, k: SlotKey, es: seq<Event>)
    requires Confined(m, s, k) && ElsewhereRun(es, k)
    ensures Confined(Run(m, es), s, k)
    decreases |es|
  {
    hide Confined, Next, Elsewhere;
    if es != [] {
      assert Elsewhere(es[0], k);
      StepConfined(m, s, k, es[0]);
      assert ElsewhereRun(es[1..], k);
      RunConfined(Next(m, es[0]), s, k, es[1..]);
    }
  }

  /** A slot that comes up with a route. */
  predicate HasRoute(s: Snapshot, k: SlotKey) {
    CurrentRoute(Reload(s).routes, k).Some?
  }

  lemma IncarnationConfined(s: Snapshot, k: SlotKey)
    requires HasRoute(s, k)
    ensures Confined(Incarnation(s), s, k)
  {
    hide LoadLedger, LoadWorld, InstallAll, FirstKeys, View;
    var rs := InstallAll([], s.routes);
    MarkedNow(rs, k);
  }

  lemma MarkedNow(rs: Routes, k: SlotKey)
    requires CurrentRoute(MarkRevalidation(rs), k).Some?
    ensures RouteBlocks(MarkRevalidation(rs), k)
  {
    SameFirst(rs, MarkRevalidation(rs), k);
  }

  /** An authorization for a slot that came up with a route is accepted only by an incarnation that
      has already saved its epoch, or in which the facade has installed a route of that slot. */
  lemma AcceptedMeansSaved(s: Snapshot, es: seq<Event>, auth: Authorization)
    requires HasRoute(s, auth.slot) && Accepts(Run(Incarnation(s), es).fab, auth)
    ensures auth.epoch == Run(Incarnation(s), es).fab.ledger.epoch
    ensures Saved(Run(Incarnation(s), es)) || exists i :: 0 <= i < |es| && !Elsewhere(es[i], auth.slot)
  {
    hide Run, Incarnation, RouteBlocks, HasRoute, Reload, CurrentOf;
    if ElsewhereRun(es, auth.slot) {
      IncarnationConfined(s, auth.slot);
      RunConfined(Incarnation(s), s, auth.slot, es);
    }
  }

  /** An incarnation that has done nothing yet, and so has not saved, already accepts the assignment
      it was loaded with, if and only if that is active, its boot unfenced, and the slot came up
      without a route. */
  lemma UnsavedAcceptsIff(s: Snapshot, auth: Authorization)
    requires s.epoch.value + 1 < U64_LIMIT
    ensures !Saved(Incarnation(s))
    ensures var last := LastActive(s.assignments, auth.slot);
            Accepts(Incarnation(s).fab, auth) <==>
            && last.Some? && !(RecordsCutover(s) || (Interrupted(TxnOf(s)) && last.value.workerBoot in s.fencedBoots))
            && !HasRoute(s, auth.slot)
            && auth.epoch == Epoch(s.epoch.value + 1, 1, 1) && auth.workerBoot == last.value.workerBoot
            && auth.workerBoot !in s.fencedBoots
            && auth.assignment == last.value.id && auth.assignmentGeneration == last.value.generation
            && auth.routeGeneration == last.value.routeGeneration
  {
    hide LoadLedger, LoadWorld, InstallAll, FirstKeys, View, CurrentOf, LastActive, MarkRevalidation;
    var z := Normalize(s);
    LoadFrame(z);
    LoadedCurrent(z, auth.slot);
    SameCurrent(Load(z).ledger, Boot(z).ledger, auth.slot);
    LoadedRouteBlocks(InstallAll([], z.routes), auth.slot);
  }

  lemma LoadedRouteBlocks(rs: Routes, k: SlotKey)
    ensures RouteBlocks(MarkRevalidation(rs), k) <==> CurrentRoute(MarkRevalidation(rs), k).Some?
  {
    if CurrentRoute(MarkRevalidation(rs), k).Some? {
      MarkedNow(rs, k);
    }
  }

  // ----- across incarnations ---------------------------------------------------------

  /** Both the running epoch and the recorded one are beyond `v`, with room for more restarts. */
  ghost predicate Beyond(m: Machine, v: u64, room: nat) {
    && m.disk.Some? && v <= m.disk.value.epoch.value <= m.fab.ledger.epoch.value
    && v < m.fab.ledger.epoch.value && m.fab.ledger.epoch.value + room < U64_LIMIT
  }

  lemma RestartEpoch(s: Snapshot)
    requires s.epoch.value + 1 < U64_LIMIT
    ensures Incarnation(s).fab.ledger.epoch == Epoch(s.epoch.value + 1, 1, 1) && Incarnation(s).disk == Some(s)
  {
    hide LoadLedger, LoadWorld, InstallAll, FirstKeys, View, MarkRevalidation;
  }

  lemma {:induction false} StaysBeyond(m: Machine, v: u64, xs: seq<Action>)
    requires Beyond(m, v, Crashes(xs))
    ensures Beyond(ActAll(m, xs), v, 0)
    decreases |xs|
  {
    hide Next, Incarnation;
    if xs != [] {
      match xs[0] {
        case Step(e) => EpochStays(m, e);
        case Crash => RestartEpoch(m.disk.value);
      }
      StaysBeyond(Act(m, xs[0]), v, xs[1..]);
    }
  }

  /** Once an incarnation has saved its epoch, none of its authorizations survives it. */
  lemma SavedEpochDiesWithIncarnation(m: Machine, xs: seq<Action>, auth: Authorization)
    requires Saved(m) && auth.epoch == m.fab.ledger.epoch && m.fab.ledger.epoch.value + 1 + Crashes(xs) < U64_LIMIT
    ensures !Accepts(ActAll(Act(m, Crash), xs).fab, auth)
  {
    hide ActAll, Incarnation, CurrentOf, RouteBlocks;
    RestartEpoch(m.disk.value);
    StaysBeyond(Act(m, Crash), auth.epoch.value, xs);
  }

  /** Over any chain of crashes and restarts, an authorization that was accepted for a slot with a
      persisted route is refused by every later incarnation, although assignment ids start over,
      unless the facade had installed a route of that slot. */
  lemma LaterIncarnationsRefuse(s: Snapshot, es: seq<Event>, xs: seq<Action>, auth: Authorization)
    requires HasRoute(s, auth.slot) && Accepts(Run(Incarnation(s), es).fab, auth)
             && s.epoch.value + 2 + Crashes(xs) < U64_LIMIT
    ensures !Accepts(ActAll(Act(Run(Incarnation(s), es), Crash), xs).fab, auth) ||
            exists i :: 0 <= i < |es| && !Elsewhere(es[i], auth.slot)
  {
    hide Run, Incarnation, HasRoute, ActAll, Act, Accepts, Saved;
    AcceptedMeansSaved(s, es, auth);
    RunEpoch(Incarnation(s), es);
    RestartEpoch(s);
    if Saved(Run(Incarnation(s), es)) {
      SavedEpochDiesWithIncarnation(Run(Incarnation(s), es), xs, auth);
    }
  }

  lemma {:induction false} RunEpoch(m: Machine, es: seq<Event>)
    ensures Run(m, es).fab.ledger.epoch == m.fab.ledger.epoch
    ensures Run(m, es).disk == m.disk || Saved(Run(m, es))
    decreases |es|
  {
    hide Next;
    if es != [] {
      EpochStays(m, es[0]);
      RunEpoch(Next(m, es[0]), es[1..]);
    }
  }

  function Steps(es: seq<Event>): (xs: seq<Action>)
    ensures Crashes(xs) == 0
  {
    if es == [] then [] else [Step(es[0])] + Steps(es[1..])
  }

  lemma {:induction false} StepsRun(m: Machine, es: seq<Event>)
    ensures ActAll(m, Steps(es)) == Run(m, es)
    decreases |es|
  {
    hide Next;
    if es != [] {
      StepsRun(Next(m, es[0]), es[1..]);
      assert Steps(es)[1..] == Steps(es[1..]);
    }
  }

  /** Whatever an incarnation accepted, for any slot, is refused by all later incarnations if and
      only if it saved; if it did not, its successor runs under the same epoch and can accept it
      again. */
  lemma RefusedLaterIffSaved(s: Snapshot, es: seq<Event>, auth: Authorization)
    requires Accepts(Run(Incarnation(s), es).fab, auth) && s.epoch.value + 2 < U64_LIMIT
    ensures var m := Run(Incarnation(s), es);
            (forall xs :: s.epoch.value + 2 + Crashes(xs) < U64_LIMIT ==>
             !Accepts(ActAll(Act(m, Crash), xs).fab, auth)) <==> Saved(m)
  {
    hide Run, Incarnation, ActAll, CurrentOf, RouteBlocks, Crashes;
    var m := Run(Incarnation(s), es);
    RestartEpoch(s);
    RunEpoch(Incarnation(s), es);
    if Saved(m) {
      forall xs | s.epoch.value + 2 + Crashes(xs) < U64_LIMIT ensures !Accepts(ActAll(Act(m, Crash), xs).fab, auth) {
        SavedEpochDiesWithIncarnation(m, xs, auth);
      }
    } else {
      assert Act(m, Crash) == Incarnation(s);
      StepsRun(Incarnation(s), es);
      assert Crashes(Steps(es)) == 0 && Accepts(ActAll(Act(m, Crash), Steps(es)).fab, auth);
    }
  }
}
