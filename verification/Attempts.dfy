/** One attempt from beginning to end, with nothing in between: `execute_plan` as a function of the
    replies it gets, its place among the interleaved runs, and the route it leaves behind. */
module Attempts {
  import opened Types
  import opened Selection
  import opened Routing
  import opened Fabric
  import opened Durable
  import opened Cutover

  /** What the outside world answers, and whether each checkpoint can be written. */
  datatype Replies = Replies(
    intentSaved: bool, fenceApplied: bool, fenceUnproven: bool, fenceSaved: bool,
    activated: bool, activationSaved: bool, routed: bool, routeSaved: bool, verified: bool, now: int)

  /** The durable side: the checkpoint path, if any, and the last record written. */
  datatype Store = Store(disk: Option<Snapshot>, checkpointing: bool)

  datatype Outcome =
    | Done(fab: Fabric, store: Store, result: AttemptState)
    | Raised(fab: Fabric, store: Store)   // a checkpoint could not be written, or a counter ran out

  // ----- the phases, last first ------------------------------------------------------

  function Record(f: Fabric, d: Store): Store {
    if d.checkpointing then d.(disk := Some(SnapshotOf(f))) else d
  }

  function VerifyPhase(f: Fabric, d: Store, a: Attempt, r: Replies): Outcome {
    var (g, result) := CommitSection(f, a, r.verified, r.now);
    Done(g, d, result)
  }

  function RoutePhase(f: Fabric, d: Store, a: Attempt, r: Replies): Outcome {
    var e := RouteFor(f, a);
    var (g, ok) := InstallSection(f, e, r.routed);
    if !ok then Done(g, d, RecoveryRequired)
    else
      var h := MarkTxn(g, RouteInstalled, a, Some(e));
      if d.checkpointing && !r.routeSaved then Raised(h, d)
      else if h.barrier.RouteInstalled? then Done(h, Record(h, d), RecoveryRequired)
      else VerifyPhase(h, Record(h, d), a, r)
  }

  function ActivatePhase(f: Fabric, d: Store, a: Attempt, r: Replies): Outcome {
    if !r.activated then Done(Note(f, RecoveryRequired), d, RecoveryRequired)
    else
      var h := MarkTxn(f, ActivationAcknowledged, a, None);
      if d.checkpointing && !r.activationSaved then Raised(h, d)
      else if h.barrier.ActivationAcknowledged? then Done(h, Record(h, d), RecoveryRequired)
      else RoutePhase(h, Record(h, d), a, r)
  }

  function FencePhase(f: Fabric, d: Store, a: Attempt, r: Replies): Outcome {
    var (g, ok) := FenceSection(f, a, r.fenceApplied, r.fenceUnproven);
    if !ok then Done(g, d, FailedAttempt)
    else
      var h := MarkTxn(g, OldAdmissionFenced, a, None);
      if d.checkpointing && !r.fenceSaved then Raised(h, d)
      else if h.barrier.OldAdmissionFenced? then Done(h, Record(h, d), RecoveryRequired)
      else ActivatePhase(h, Record(h, d), a, r)
  }

  function IntentPhase(f: Fabric, d: Store, a: Attempt, r: Replies): Outcome {
    var h := MarkTxn(f, IntentOnly, a, None);
    if d.checkpointing && !r.intentSaved then Raised(h, d)
    else if h.barrier.IntentOnly? then Done(h, Record(h, d), RecoveryRequired)
    else FencePhase(h, Record(h, d), a, r)
  }

  function Execute(f: Fabric, d: Store, plan: Plan, r: Replies): Outcome {
    match Validate(f, plan)
    case Invalid => Done(BeginSection(f, plan), d, FailedAttempt)
    case Threw(_) => Raised(BeginSection(f, plan), d)
    case Valid(a) => IntentPhase(BeginSection(f, plan), d, a, r)
  }

  // ----- it is one of the interleaved runs -------------------------------------------

  function VerifyScript(t: nat, r: Replies): seq<Event> {
    [VerifyReply(t, r.verified, r.now)]
  }

  function RouteScript(t: nat, r: Replies): seq<Event> {
    [BuildRoute(t)] + ([RouteReply(t, r.routed)] + ([Mark(t)] + ([Save(t, r.routeSaved)] + VerifyScript(t, r))))
  }

  function ActivateScript(t: nat, r: Replies): seq<Event> {
    [ActivateReply(t, r.activated)] + ([Mark(t)] + ([Save(t, r.activationSaved)] + RouteScript(t, r)))
  }

  function FenceScript(t: nat, r: Replies): seq<Event> {
    [FenceReply(t, r.fenceApplied, r.fenceUnproven)] + ([Mark(t)] + ([Save(t, r.fenceSaved)] + ActivateScript(t, r)))
  }

  function IntentScript(t: nat, r: Replies): seq<Event> {
    [Mark(t)] + ([Save(t, r.intentSaved)] + FenceScript(t, r))
  }

  /** The steps of one attempt, in the order in which `execute_plan` takes them. */
  function Script(t: nat, plan: Plan, r: Replies): seq<Event> {
    [Begin(t, plan)] + IntentScript(t, r)
  }

  /** The machine stands where an attempt with outcome `o` has left it. */
  predicate Reaches(m: Machine, t: nat, o: Outcome) {
    && m.fab == o.fab && m.disk == o.store.disk
    && t in m.procs && (o.Done? ==> m.procs[t].pc == Ended(o.result)) && (o.Raised? ==> m.procs[t].pc.Thrown?)
  }

  predicate Stands(m: Machine, t: nat, pc: Pc, f: Fabric, d: Store, a: Attempt, route: Option<RouteEntry>) {
    && t in m.procs && m.procs[t].pc == pc && m.procs[t].attempt == a && m.procs[t].route == route
    && m.fab == f && m.disk == d.disk && m.checkpointing == d.checkpointing
  }

  predicate Over(m: Machine, t: nat) {
    t in m.procs && (m.procs[t].pc.Ended? || m.procs[t].pc.Thrown?)
  }

  predicate OwnStep(e: Event, t: nat) {
    match e
    case Begin(_, _) => false
    case Do(_) => false
    case SaveNow => false
    case _ => e.tid == t
  }

  ghost predicate OwnSteps(es: seq<Event>, t: nat) {
    forall i :: 0 <= i < |es| ==> OwnStep(es[i], t)
  }

  /** An attempt that is over ignores the rest of its script. */
  lemma OverIgnores(m: Machine, t: nat, e: Event)
    requires Over(m, t) && OwnStep(e, t)
    ensures Next(m, e) == m
  {
  }

  lemma {:induction false} OverRuns(m: Machine, t: nat, es: seq<Event>)
    requires Over(m, t) && OwnSteps(es, t)
    ensures Run(m, es) == m
    decreases |es|
  {
    hide Next, OwnStep;
    if es != [] {
      assert OwnStep(es[0], t);
      OverIgnores(m, t, es[0]);
      assert OwnSteps(es[1..], t);
      OverRuns(m, t, es[1..]);
    }
  }

  lemma RunCons(m: Machine, e: Event, es: seq<Event>)
    ensures Run(m, [e] + es) == Run(Next(m, e), es)
  {
    hide Next;
    assert ([e] + es)[1..] == es;
  }

  lemma ScriptsAreOwn(t: nat, r: Replies)
    ensures OwnSteps(VerifyScript(t, r), t) && OwnSteps(RouteScript(t, r), t)
    ensures OwnSteps(ActivateScript(t, r), t) && OwnSteps(FenceScript(t, r), t)
  {
  }

  /** Marking and saving a milestone: the attempt is over, or goes on to the next phase. */
  lemma CheckpointRuns(m: Machine, t: nat, ms: Milestone, f: Fabric, d: Store, a: Attempt, route: Option<RouteEntry>,
                       ok: bool, rest: seq<Event>)
    returns (n: Machine)
    requires Stands(m, t, ToMark(ms), f, d, a, route) && OwnSteps(rest, t)
    ensures Run(m, [Mark(t)] + ([Save(t, ok)] + rest)) == Run(n, rest)
    ensures var h := MarkTxn(f, ms, a, route);
            if d.checkpointing && !ok then Reaches(Run(n, rest), t, Raised(h, d))
            else if h.barrier == ms then Reaches(Run(n, rest), t, Done(h, Record(h, d), RecoveryRequired))
            else Stands(n, t, After(ms), h, Record(h, d), a, route)
  {
    var x := MarkStep(m, t);
    n := SaveStep(x, t, ok);
    hide Run, SnapshotOf;
    assert Next(m, Mark(t)) == x && Next(x, Save(t, ok)) == n;
    hide Next;
    RunCons(m, Mark(t), [Save(t, ok)] + rest);
    RunCons(x, Save(t, ok), rest);
    if Over(n, t) {
      OverRuns(n, t, rest);
    }
  }

  lemma VerifyRuns(m: Machine, t: nat, f: Fabric, d: Store, a: Attempt, route: Option<RouteEntry>, r: Replies)
    requires Stands(m, t, ToVerify, f, d, a, route)
    ensures Reaches(Run(m, VerifyScript(t, r)), t, VerifyPhase(f, d, a, r))
  {
    hide CommitSection;
    var n := VerifyStep(m, t, r.verified, r.now);
    assert Next(m, VerifyReply(t, r.verified, r.now)) == n;
    hide Next;
    assert Run(m, VerifyScript(t, r)) == n by {
      RunCons(m, VerifyReply(t, r.verified, r.now), []);
      assert [VerifyReply(t, r.verified, r.now)] + [] == VerifyScript(t, r);
      assert Run(n, []) == n;
    }
  }

  /** From the installed route on. */
  lemma InstalledRuns(m: Machine, t: nat, g: Fabric, d: Store, a: Attempt, e: RouteEntry, r: Replies)
    requires Stands(m, t, ToMark(RouteInstalled), g, d, a, Some(e))
    ensures var h := MarkTxn(g, RouteInstalled, a, Some(e));
            Reaches(Run(m, [Mark(t)] + ([Save(t, r.routeSaved)] + VerifyScript(t, r))), t,
                    if d.checkpointing && !r.routeSaved then Raised(h, d)
                    else if h.barrier.RouteInstalled? then Done(h, Record(h, d), RecoveryRequired)
                    else VerifyPhase(h, Record(h, d), a, r))
  {
    hide Run, VerifyPhase, VerifyScript, SnapshotOf;
    ScriptsAreOwn(t, r);
    var h := MarkTxn(g, RouteInstalled, a, Some(e));
    var n := CheckpointRuns(m, t, RouteInstalled, g, d, a, Some(e), r.routeSaved, VerifyScript(t, r));
    if Stands(n, t, ToVerify, h, Record(h, d), a, Some(e)) {
      VerifyRuns(n, t, h, Record(h, d), a, Some(e), r);
    }
  }

  lemma RouteRuns(m: Machine, t: nat, f: Fabric, d: Store, a: Attempt, r: Replies)
    requires Stands(m, t, ToRoute, f, d, a, None)
    ensures Reaches(Run(m, RouteScript(t, r)), t, RoutePhase(f, d, a, r))
  {
    hide Run, RouteFor, Install, VerifyPhase, VerifyScript, SnapshotOf;
    ScriptsAreOwn(t, r);
    var tail := [Mark(t)] + ([Save(t, r.routeSaved)] + VerifyScript(t, r));
    var x := RouteStep(m, t);
    var y := InstallStep(x, t, r.routed);
    assert Next(m, BuildRoute(t)) == x && Next(x, RouteReply(t, r.routed)) == y;
    hide Next;
    RunCons(m, BuildRoute(t), [RouteReply(t, r.routed)] + tail);
    RunCons(x, RouteReply(t, r.routed), tail);
    var e := RouteFor(f, a);
    if !r.routed {
      OverRuns(y, t, tail);
    } else {
      InstalledRuns(y, t, f.(routes := Install(f.routes, e)), d, a, e, r);
    }
  }

  lemma ActivateRuns(m: Machine, t: nat, f: Fabric, d: Store, a: Attempt, r: Replies)
    requires Stands(m, t, ToActivate, f, d, a, None)
    ensures Reaches(Run(m, ActivateScript(t, r)), t, ActivatePhase(f, d, a, r))
  {
    hide Run, RoutePhase, RouteScript, SnapshotOf;
    ScriptsAreOwn(t, r);
    var tail := [Mark(t)] + ([Save(t, r.activationSaved)] + RouteScript(t, r));
    var x := ActivateStep(m, t, r.activated);
    assert Next(m, ActivateReply(t, r.activated)) == x;
    hide Next;
    RunCons(m, ActivateReply(t, r.activated), tail);
    if !r.activated {
      OverRuns(x, t, tail);
    } else {
      var n := CheckpointRuns(x, t, ActivationAcknowledged, f, d, a, None, r.activationSaved, RouteScript(t, r));
      var h := MarkTxn(f, ActivationAcknowledged, a, None);
      if Stands(n, t, ToRoute, h, Record(h, d), a, None) {
        RouteRuns(n, t, h, Record(h, d), a, r);
      }
    }
  }

  lemma FenceRuns(m: Machine, t: nat, f: Fabric, d: Store, a: Attempt, r: Replies)
    requires Stands(m, t, ToFence, f, d, a, None)
    ensures Reaches(Run(m, FenceScript(t, r)), t, FencePhase(f, d, a, r))
  {
    hide Run, ActivatePhase, ActivateScript, SnapshotOf, FenceSource;
    ScriptsAreOwn(t, r);
    var tail := [Mark(t)] + ([Save(t, r.fenceSaved)] + ActivateScript(t, r));
    var x := FenceStep(m, t, r.fenceApplied, r.fenceUnproven);
    assert Next(m, FenceReply(t, r.fenceApplied, r.fenceUnproven)) == x;
    hide Next;
    RunCons(m, FenceReply(t, r.fenceApplied, r.fenceUnproven), tail);
    var (g, ok) := FenceSection(f, a, r.fenceApplied, r.fenceUnproven);
    if !ok {
      OverRuns(x, t, tail);
    } else {
      var n := CheckpointRuns(x, t, OldAdmissionFenced, g, d, a, None, r.fenceSaved, ActivateScript(t, r));
      var h := MarkTxn(g, OldAdmissionFenced, a, None);
      if Stands(n, t, ToActivate, h, Record(h, d), a, None) {
        ActivateRuns(n, t, h, Record(h, d), a, r);
      }
    }
  }

  lemma IntentRuns(m: Machine, t: nat, f: Fabric, d: Store, a: Attempt, r: Replies)
    requires Stands(m, t, ToMark(IntentOnly), f, d, a, None)
    ensures Reaches(Run(m, IntentScript(t, r)), t, IntentPhase(f, d, a, r))
  {
    hide Run, FencePhase, FenceScript, SnapshotOf;
    ScriptsAreOwn(t, r);
    var n := CheckpointRuns(m, t, IntentOnly, f, d, a, None, r.intentSaved, FenceScript(t, r));
    var h := MarkTxn(f, IntentOnly, a, None);
    if Stands(n, t, ToFence, h, Record(h, d), a, None) {
      FenceRuns(n, t, h, Record(h, d), a, r);
    }
  }

  /** An attempt that is left alone takes exactly the steps of its script: running the phases one
      after another is one of the interleaved runs, so everything proved of those holds of it. */
  lemma ExecuteIsARun(m: Machine, t: nat, plan: Plan, r: Replies)
    requires t !in m.procs && Validate(m.fab, plan).Valid?
    ensures Reaches(Run(m, Script(t, plan, r)), t, Execute(m.fab, Store(m.disk, m.checkpointing), plan, r))
  {
    hide Run, IntentPhase, IntentScript, Validate;
    var b := BeginStep(m, t, plan);
    assert Next(m, Begin(t, plan)) == b;
    hide Next;
    RunCons(m, Begin(t, plan), IntentScript(t, r));
    IntentRuns(b, t, b.fab, Store(m.disk, m.checkpointing), Validate(m.fab, plan).attempt, r);
  }

  // ----- the route a completed attempt leaves ----------------------------------------

  predicate Completes(o: Outcome) {
    o.Done? && o.result.Completed?
  }

  // How far an attempt gets. Each condition is about the replies and the barrier alone.

  /** A milestone is recorded and passed: its checkpoint is written, if one is asked for, and it is not
      where the barrier stops. */
  predicate Passes(f: Fabric, d: Store, saved: bool, milestone: Milestone) {
    (!d.checkpointing || saved) && f.barrier != milestone
  }

  predicate FenceGranted(source: Option<Assignment>, r: Replies) {
    source.Some? ==> r.fenceApplied && !r.fenceUnproven
  }

  predicate PastIntent(f: Fabric, d: Store, r: Replies) {
    Passes(f, d, r.intentSaved, IntentOnly)
  }

  predicate PastFencing(f: Fabric, d: Store, source: Option<Assignment>, r: Replies) {
    PastIntent(f, d, r) && FenceGranted(source, r) && Passes(f, d, r.fenceSaved, OldAdmissionFenced)
  }

  predicate PastActivation(f: Fabric, d: Store, source: Option<Assignment>, r: Replies) {
    PastFencing(f, d, source, r) && r.activated && Passes(f, d, r.activationSaved, ActivationAcknowledged)
  }

  predicate PastRouting(f: Fabric, d: Store, source: Option<Assignment>, r: Replies) {
    PastActivation(f, d, source, r) && r.routed && Passes(f, d, r.routeSaved, RouteInstalled)
  }

  /** Nothing but the transaction record and the list of attempt states differs from `f`. */
  predicate Untouched(f: Fabric, g: Fabric) {
    && g.ledger == f.ledger && g.routes == f.routes && g.world == f.world && g.book == f.book && g.barrier == f.barrier
  }

  lemma OwnCommit(l: Ledger, a: Attempt)
    requires a.source == CurrentOf(l, a.slot)
    ensures !Supersedes(l, a) && !Supersedes(FenceSource(l, a), a)
  {
    SameCurrent(l, FenceSource(l, a), a.slot);
  }

  /** The verdict of each phase, in terms of the replies. */
  lemma RouteOutcome(f: Fabric, d: Store, a: Attempt, r: Replies)
    requires !Supersedes(f.ledger, a)
    ensures var o := RoutePhase(f, d, a, r);
            && (Completes(o) <==> r.routed && Passes(f, d, r.routeSaved, RouteInstalled) && r.verified)
            && (!r.routed ==> o.Done? && o.result.RecoveryRequired? && Untouched(f, o.fab))
            && (r.routed && Passes(f, d, r.routeSaved, RouteInstalled) && !r.verified ==>
                 o.Done? && o.result.RecoveryRequired?)
            && (!Completes(o) ==> o.fab.ledger == f.ledger)
  {
    hide Install, SnapshotOf, RouteFor, Supersedes, CommitLedger;
  }

  lemma ActivateOutcome(f: Fabric, d: Store, a: Attempt, r: Replies)
    requires !Supersedes(f.ledger, a)
    ensures var o := ActivatePhase(f, d, a, r);
            var past := r.activated && Passes(f, d, r.activationSaved, ActivationAcknowledged);
            && (Completes(o) <==> past && r.routed && Passes(f, d, r.routeSaved, RouteInstalled) && r.verified)
            && (!r.activated || (past && !r.routed) ==> o.Done? && o.result.RecoveryRequired? && Untouched(f, o.fab))
            && (past && r.routed && Passes(f, d, r.routeSaved, RouteInstalled) && !r.verified ==>
                 o.Done? && o.result.RecoveryRequired?)
            && (!Completes(o) ==> o.fab.ledger == f.ledger)
  {
    hide SnapshotOf, RoutePhase, Supersedes;
    var h := MarkTxn(f, ActivationAcknowledged, a, None);
    RouteOutcome(h, Record(h, d), a, r);
  }

  lemma FenceOutcome(f: Fabric, d: Store, a: Attempt, r: Replies)
    requires a.source == CurrentOf(f.ledger, a.slot)
    ensures var o := FencePhase(f, d, a, r);
            var past := FenceGranted(a.source, r) && Passes(f, d, r.fenceSaved, OldAdmissionFenced);
            var active := past && r.activated && Passes(f, d, r.activationSaved, ActivationAcknowledged);
            && (Completes(o) <==> active && r.routed && Passes(f, d, r.routeSaved, RouteInstalled) && r.verified)
            && (!FenceGranted(a.source, r) ==> o.Done? && o.result.FailedAttempt? && Untouched(f, o.fab))
            && ((past && !r.activated) || (active && !r.routed) ==>
                 && o.Done? && o.result.RecoveryRequired?
                 && Untouched(f.(ledger := FenceSource(f.ledger, a)), o.fab))
            && (active && r.routed && Passes(f, d, r.routeSaved, RouteInstalled) && !r.verified ==>
                 o.Done? && o.result.RecoveryRequired?)
            && (!Completes(o) ==> o.fab.ledger == f.ledger || o.fab.ledger == FenceSource(f.ledger, a))
  {
    hide SnapshotOf, ActivatePhase, Supersedes, AddFenced;
    OwnCommit(f.ledger, a);
    var g := f.(ledger := FenceSource(f.ledger, a));
    var h := MarkTxn(g, OldAdmissionFenced, a, None);
    ActivateOutcome(h, Record(h, d), a, r);
  }

  lemma IntentOutcome(f: Fabric, d: Store, a: Attempt, r: Replies)
    requires a.source == CurrentOf(f.ledger, a.slot)
    ensures var o := IntentPhase(f, d, a, r);
            && (Completes(o) <==> PastRouting(f, d, a.source, r) && r.verified)
            && (PastIntent(f, d, r) && !FenceGranted(a.source, r) ==>
                 o.Done? && o.result.FailedAttempt? && Untouched(f, o.fab))
            && ((PastFencing(f, d, a.source, r) && !r.activated) || (PastActivation(f, d, a.source, r) && !r.routed) ==>
                 && o.Done? && o.result.RecoveryRequired?
                 && Untouched(f.(ledger := FenceSource(f.ledger, a)), o.fab))
            && (PastRouting(f, d, a.source, r) && !r.verified ==> o.Done? && o.result.RecoveryRequired?)
            && (!Completes(o) ==> o.fab.ledger == f.ledger || o.fab.ledger == FenceSource(f.ledger, a))
  {
    hide SnapshotOf, FencePhase, FenceSource;
    var h := MarkTxn(f, IntentOnly, a, None);
    FenceOutcome(h, Record(h, d), a, r);
  }

  /** An attempt that is left alone completes if and only if its plan is valid, every configured
      checkpoint is written, the barrier stops it at none of its four milestones, and every party
      agrees: the fence is applied and proven if there is a source, the activation and the route are
      acknowledged, and the verification succeeds. */
  lemma CompletesIff(f: Fabric, d: Store, plan: Plan, r: Replies)
    ensures Completes(Execute(f, d, plan, r)) <==>
            && Validate(f, plan).Valid?
            && (d.checkpointing ==> r.intentSaved && r.fenceSaved && r.activationSaved && r.routeSaved)
            && f.barrier !in {IntentOnly, OldAdmissionFenced, ActivationAcknowledged, RouteInstalled}
            && (CurrentOf(f.ledger, plan.slot).Some? ==> r.fenceApplied && !r.fenceUnproven)
            && r.activated && r.routed && r.verified
  {
    hide Validate, IntentPhase, CurrentOf;
    if Validate(f, plan).Valid? {
      ValidAttempt(f, plan);
      var b := BeginSection(f, plan);
      SameCurrent(f.ledger, b.ledger, plan.slot);
      IntentOutcome(b, d, Validate(f, plan).attempt, r);
    }
  }

  /** A checkpoint that the attempt gets to cannot be written. */
  predicate SaveFails(f: Fabric, d: Store, source: Option<Assignment>, r: Replies) {
    && d.checkpointing
    && (|| !r.intentSaved
        || (PastIntent(f, d, r) && FenceGranted(source, r) && !r.fenceSaved)
        || (PastFencing(f, d, source, r) && r.activated && !r.activationSaved)
        || (PastActivation(f, d, source, r) && r.routed && !r.routeSaved))
  }

  lemma PhasesRaiseIff(f: Fabric, d: Store, a: Attempt, r: Replies)
    ensures IntentPhase(f, d, a, r).Raised? <==> SaveFails(f, d, a.source, r)
    ensures var o := IntentPhase(f, d, a, r);
            o.Done? ==> (o.result.FailedAttempt? <==> PastIntent(f, d, r) && !FenceGranted(a.source, r))
    ensures var o := IntentPhase(f, d, a, r);
            o.Done? ==> o.result in {FailedAttempt, RecoveryRequired, Superseded, Completed}
  {
    hide SnapshotOf, Install, RouteFor, Supersedes, CommitLedger, AddFenced;
  }

  /** How a valid attempt ends: with an exception exactly when a checkpoint it gets to cannot be
      written, failed exactly when its fence is refused, and otherwise, unless it completes, waiting for
      recovery. It is never superseded when nothing happens in between. */
  lemma HowItEnds(f: Fabric, d: Store, plan: Plan, r: Replies)
    requires Validate(f, plan).Valid?
    ensures var o := Execute(f, d, plan, r);
            var source := CurrentOf(f.ledger, plan.slot);
            && (o.Raised? <==> SaveFails(f, d, source, r))
            && (o.Done? ==> o.result in {FailedAttempt, RecoveryRequired, Completed})
            && (o.Done? ==> (o.result.FailedAttempt? <==> PastIntent(f, d, r) && !FenceGranted(source, r)))
            && (o.Done? ==> (o.result.Completed? <==> PastRouting(f, d, source, r) && r.verified))
  {
    hide Validate, IntentPhase, CurrentOf;
    ValidAttempt(f, plan);
    var b := BeginSection(f, plan);
    var a := Validate(f, plan).attempt;
    SameCurrent(f.ledger, b.ledger, plan.slot);
    IntentOutcome(b, d, a, r);
    PhasesRaiseIff(b, d, a, r);
    NotSuperseded(b, d, a, r);
  }

  lemma NotSuperseded(f: Fabric, d: Store, a: Attempt, r: Replies)
    requires a.source == CurrentOf(f.ledger, a.slot)
    ensures var o := IntentPhase(f, d, a, r); o.Done? ==> !o.result.Superseded?
  {
    OwnCommit(f.ledger, a);
    hide SnapshotOf, Install, RouteFor, Supersedes, CommitSlots, AddFenced, CurrentOf;
  }

  /** The first refusal decides. A fence that is not applied or not proven fails the attempt, and nobody
      is fenced; an activation or a route that is not acknowledged ends it for recovery with the old boot
      fenced and the routes untouched; a failed verification ends it for recovery. Whatever stops an
      attempt, no slot, and no authority generation, has changed. */
  lemma RefusedAttempt(f: Fabric, d: Store, plan: Plan, r: Replies)
    requires Validate(f, plan).Valid?
    ensures var o := Execute(f, d, plan, r);
            var a := Validate(f, plan).attempt;
            var l := f.ledger.(minted := f.ledger.minted + 1);
            && (PastIntent(f, d, r) && !FenceGranted(a.source, r) ==>
                 && o.Done? && o.result.FailedAttempt?
                 && o.fab.ledger == l && o.fab.routes == f.routes && o.fab.book == f.book)
            && ((PastFencing(f, d, a.source, r) && !r.activated) || (PastActivation(f, d, a.source, r) && !r.routed) ==>
                 && o.Done? && o.result.RecoveryRequired?
                 && o.fab.ledger == FenceSource(l, a) && o.fab.routes == f.routes && o.fab.book == f.book)
            && (PastRouting(f, d, a.source, r) && !r.verified ==> o.Done? && o.result.RecoveryRequired?)
            && (!Completes(o) ==>
                 && o.fab.ledger.slots == f.ledger.slots && o.fab.ledger.index == f.ledger.index
                 && o.fab.ledger.lastAuthority == f.ledger.lastAuthority)
  {
    hide Validate, IntentPhase, CurrentOf, AddFenced;
    ValidAttempt(f, plan);
    var b := BeginSection(f, plan);
    SameCurrent(f.ledger, b.ledger, plan.slot);
    IntentOutcome(b, d, Validate(f, plan).attempt, r);
  }

  /** A completed attempt went through every phase: it installed its route and committed. */
  lemma CompletedEffects(f: Fabric, d: Store, plan: Plan, r: Replies)
    requires Completes(Execute(f, d, plan, r))
    ensures Validate(f, plan).Valid?
    ensures var a := Validate(f, plan).attempt;
            var g := Execute(f, d, plan, r).fab;
            && g.routes == Install(f.routes, RouteFor(f, a))
            && g.ledger == CommitLedger(FenceSource(f.ledger.(minted := f.ledger.minted + 1), a), a)
            && g.world == f.world && g.book == f.book.(lastTransition := f.book.lastTransition[a.slot := r.now])
  {
    hide Validate, CommitLedger, Install, SnapshotOf, Decimal, Supersedes, AddFenced;
  }

  /** After a completed attempt the slot's current route is the one made for the committed
      assignment if and only if the table could take it: the requested generation is newer than the
      slot's route and the epoch not older (or that very route was there already). */
  lemma CompletedRouteIsCurrentIff(f: Fabric, d: Store, plan: Plan, r: Replies)
    requires ValidRoutes(f.routes) && Completes(Execute(f, d, plan, r))
    ensures var a := Validate(f, plan).attempt;
            var e := RouteFor(f, a);
            && (CurrentRoute(Execute(f, d, plan, r).fab.routes, plan.slot) == Some(e) <==>
                Installable(f.routes, e) || CurrentRoute(f.routes, plan.slot) == Some(e))
            && e.slot == plan.slot && e.assignment == a.next.id && e.assignmentGeneration == a.next.generation
            && e.target == a.next.target && e.targetGeneration == a.next.targetGeneration
            && e.incarnation == a.next.engineIncarnation && e.permittedBoot == a.next.workerBoot
            && e.route == a.next.route && e.generation == a.next.routeGeneration
            && e.epoch == f.ledger.epoch && e.gatewayBoot == f.world.gatewayBoot && e.state == Acknowledged
  {
    hide Execute, Install, Installable, CurrentRoute, Decimal, Candidates, BuildContext, Eligible, FindService,
      CurrentOf, UsesCuda;
    CompletedEffects(f, d, plan, r);
    InstalledIsCurrent(f.routes, RouteFor(f, Validate(f, plan).attempt));
  }

  /** The slot's table entry is not from a newer epoch; an emptied entry must also be an old one. */
  predicate Replaceable(f: Fabric, slot: SlotKey) {
    FindRoute(f.routes, slot).Some? ==>
      var cur := f.routes[FindRoute(f.routes, slot).value].current;
      f.ledger.epoch.value >= cur.epoch.value && (cur.state.EmptyRoute? ==> cur.generation < 2)
  }

  /** A plan made in the very state in which it is executed asks for a newer generation, so only
      the epoch of the slot's route and a null service can keep its route out. */
  lemma PlannedRouteIsCurrentIff(f: Fabric, d: Store, slot: SlotKey, preferred: Option<u64>, rank: Rank, r: Replies)
    requires ValidRoutes(f.routes) && PlanFailover(f, slot, preferred, rank).Planned?
    requires Completes(Execute(f, d, PlanFailover(f, slot, preferred, rank).plan, r))
    ensures var a := Validate(f, PlanFailover(f, slot, preferred, rank).plan).attempt;
            var g := Execute(f, d, PlanFailover(f, slot, preferred, rank).plan, r).fab;
            CurrentRoute(g.routes, slot) == Some(RouteFor(f, a)) <==>
            slot.service != 0 && Replaceable(f, slot)
  {
    hide Execute, Installable, Replaceable, CurrentRoute, RouteFor, Validate, PlanFailover;
    var plan := PlanFailover(f, slot, preferred, rank).plan;
    CompletedEffects(f, d, plan, r);
    CompletedRouteIsCurrentIff(f, d, plan, r);
    PlannedEntry(f, slot, preferred, rank);
  }

  lemma PlannedEntry(f: Fabric, slot: SlotKey, preferred: Option<u64>, rank: Rank)
    requires PlanFailover(f, slot, preferred, rank).Planned?
    requires Validate(f, PlanFailover(f, slot, preferred, rank).plan).Valid?
    ensures var e := RouteFor(f, Validate(f, PlanFailover(f, slot, preferred, rank).plan).attempt);
            && e.slot == slot
            && (Installable(f.routes, e) <==> slot.service != 0 && Replaceable(f, slot))
            && CurrentRoute(f.routes, slot) != Some(e)
  {
    hide Decimal, Candidates, BuildContext, Eligible, FindService, CurrentOf, UsesCuda, Select, FirstMatch;
  }
}
