/** Cutover attempts as interleaved processes. Every locked section of `execute_plan` is one
    step, the replies of the outside world are part of the event, and other calls of the facade
    may come in between. History variables record which assignments a slot has had. */
module Cutover {
  import opened Types
  import opened Selection
  import opened Routing
  import opened Fabric
  import opened Operations
  import opened Durable

  // ----- the machine -----------------------------------------------------------------

  /** Where an attempt stands; it writes a milestone, saves it, and goes on. */
  datatype Pc =
    | ToMark(milestone: Milestone) | ToSave(milestone: Milestone)
    | ToFence | ToActivate | ToRoute | ToInstall | ToVerify
    | Ended(result: AttemptState) | Thrown(unsaved: Milestone)

  /** `basis` is the state in which the attempt was validated, `since` the number of commits before. */
  datatype Process = Process(attempt: Attempt, pc: Pc, route: Option<RouteEntry>, basis: Fabric, since: nat)

  /** What the supersession guard compares. */
  datatype Key = Key(id: u64, generation: u64)

  datatype Commit = Commit(tid: nat, attempt: Attempt, displaced: Option<Assignment>, basis: Fabric, since: nat)

  /** History variables: `lineage` lists the keys that each visible slot has had, oldest first;
      `origin` holds the assignments that were current when the process started, and `spent` counts
      the ids that had been handed out by then. */
  datatype Machine = Machine(
    fab: Fabric, procs: map<nat, Process>, disk: Option<Snapshot>, checkpointing: bool,
    lineage: map<SlotKey, seq<Key>>, log: seq<Commit>, origin: map<SlotKey, Assignment>, spent: nat)

  datatype Event =
    | Begin(tid: nat, plan: Plan)
    | Mark(tid: nat) | Save(tid: nat, ok: bool)
    | FenceReply(tid: nat, applied: bool, unproven: bool)
    | ActivateReply(tid: nat, acknowledged: bool)
    | BuildRoute(tid: nat)
    | RouteReply(tid: nat, acknowledged: bool)
    | VerifyReply(tid: nat, verified: bool, now: int)
    | Do(op: Op)
    | SaveNow

  function KeyOf(a: Assignment): Key {
    Key(a.id, a.generation)
  }

  predicate At(m: Machine, t: nat, pc: Pc) {
    t in m.procs && m.procs[t].pc == pc
  }

  predicate Live(p: Process) {
    !p.pc.Ended? && !p.pc.Thrown?
  }

  function Move(m: Machine, t: nat, pc: Pc): Machine
    requires t in m.procs
  {
    m.(procs := m.procs[t := m.procs[t].(pc := pc)])
  }

  function BeginStep(m: Machine, t: nat, plan: Plan): Machine {
    if t in m.procs then m
    else
      var v := Validate(m.fab, plan);
      m.(fab := BeginSection(m.fab, plan),
         procs := if v.Valid? then m.procs[t := Process(v.attempt, ToMark(IntentOnly), None, m.fab, |m.log|)]
           else m.procs)
  }

  function MarkStep(m: Machine, t: nat): Machine {
    if t !in m.procs || !m.procs[t].pc.ToMark? then m
    else
      var p := m.procs[t];
      Move(m, t, ToSave(p.pc.milestone)).(fab := MarkTxn(m.fab, p.pc.milestone, p.attempt, p.route))
  }

  function After(milestone: Milestone): Pc {
    match milestone
    case IntentOnly => ToFence
    case OldAdmissionFenced => ToActivate
    case ActivationAcknowledged => ToRoute
    case _ => ToVerify
  }

  /** The checkpoint: written when a path is configured; then the barrier is looked at. */
  function SaveStep(m: Machine, t: nat, ok: bool): Machine {
    if t !in m.procs || !m.procs[t].pc.ToSave? then m
    else if m.checkpointing && !ok then Move(m, t, Thrown(m.procs[t].pc.milestone))
    else
      var milestone := m.procs[t].pc.milestone;
      Move(m, t, if m.fab.barrier == milestone then Ended(RecoveryRequired) else After(milestone))
        .(disk := if m.checkpointing then Some(SnapshotOf(m.fab)) else m.disk)
  }

  function FenceStep(m: Machine, t: nat, applied: bool, unproven: bool): Machine {
    if !At(m, t, ToFence) then m
    else
      var (f, ok) := FenceSection(m.fab, m.procs[t].attempt, applied, unproven);
      Move(m, t, if ok then ToMark(OldAdmissionFenced) else Ended(FailedAttempt)).(fab := f)
  }

  function ActivateStep(m: Machine, t: nat, acknowledged: bool): Machine {
    if !At(m, t, ToActivate) then m
    else if acknowledged then Move(m, t, ToMark(ActivationAcknowledged))
    else Move(m, t, Ended(RecoveryRequired)).(fab := Note(m.fab, RecoveryRequired))
  }

  function RouteStep(m: Machine, t: nat): Machine {
    if !At(m, t, ToRoute) then m
    else m.(procs := m.procs[t := m.procs[t].(pc := ToInstall, route := Some(RouteFor(m.fab, m.procs[t].attempt)))])
  }

  function InstallStep(m: Machine, t: nat, acknowledged: bool): Machine {
    if !At(m, t, ToInstall) || m.procs[t].route.None? then m
    else
      var (f, ok) := InstallSection(m.fab, m.procs[t].route.value, acknowledged);
      Move(m, t, if ok then ToMark(RouteInstalled) else Ended(RecoveryRequired)).(fab := f)
  }

  function Extend(lineage: map<SlotKey, seq<Key>>, k: SlotKey, key: Key): map<SlotKey, seq<Key>> {
    lineage[k := (if k in lineage then lineage[k] else []) + [key]]
  }

  function VerifyStep(m: Machine, t: nat, verified: bool, now: int): Machine {
    if !At(m, t, ToVerify) then m
    else
      var p := m.procs[t];
      var (f, result) := CommitSection(m.fab, p.attempt, verified, now);
      var done := Move(m, t, Ended(result)).(fab := f);
      if !result.Completed? then done
      else done.(
        lineage := if HasSlot(m.fab.ledger, p.attempt.slot)
          then Extend(m.lineage, p.attempt.slot, KeyOf(p.attempt.next)) else m.lineage,
        log := m.log + [Commit(t, p.attempt, CurrentOf(m.fab.ledger, p.attempt.slot), p.basis, p.since)])
  }

  function DoStep(m: Machine, op: Op): Machine {
    m.(fab := Perform(m.fab, op),
       lineage := if op.SetInitial? && InitialAllowed(m.fab.ledger, op.assignment)
                  then Extend(m.lineage, op.assignment.slot, KeyOf(op.assignment)) else m.lineage)
  }

  function Next(m: Machine, e: Event): Machine {
    match e
    case Begin(t, plan) => BeginStep(m, t, plan)
    case Mark(t) => MarkStep(m, t)
    case Save(t, ok) => SaveStep(m, t, ok)
    case FenceReply(t, applied, unproven) => FenceStep(m, t, applied, unproven)
    case ActivateReply(t, acknowledged) => ActivateStep(m, t, acknowledged)
    case BuildRoute(t) => RouteStep(m, t)
    case RouteReply(t, acknowledged) => InstallStep(m, t, acknowledged)
    case VerifyReply(t, verified, now) => VerifyStep(m, t, verified, now)
    case Do(op) => DoStep(m, op)
    case SaveNow => m.(disk := Some(SnapshotOf(m.fab)))
  }

  function Run(m: Machine, es: seq<Event>): Machine
    decreases |es|
  {
    if es == [] then m else Run(Next(m, es[0]), es[1..])
  }

  // ----- what every step keeps -------------------------------------------------------

  ghost predicate Tracks(l: Ledger, lineage: map<SlotKey, seq<Key>>, k: SlotKey) {
    && (k in lineage <==> CurrentOf(l, k).Some?)
    && (k in lineage ==> lineage[k] != [] && lineage[k][|lineage[k]| - 1] == KeyOf(CurrentOf(l, k).value))
  }

  /** A live attempt that captured something works on a visible slot. */
  ghost predicate Sourced(p: Process, lineage: map<SlotKey, seq<Key>>) {
    Live(p) && p.attempt.source.Some? ==> p.attempt.slot in lineage
  }

  /** Holds in every run, whatever the keys: the lineages follow the ledger. */
  ghost predicate Tracked(m: Machine) {
    && IndexExact(m.fab.ledger)
    && (forall k :: Tracks(m.fab.ledger, m.lineage, k))
    && (forall t :: t in m.procs ==> Sourced(m.procs[t], m.lineage))
  }

  /** A step that touches no slot, mints nothing and commits nothing. */
  ghost predicate Quiet(m: Machine, n: Machine) {
    && n.fab.ledger.slots == m.fab.ledger.slots && n.fab.ledger.index == m.fab.ledger.index
    && n.fab.ledger.minted == m.fab.ledger.minted && n.fab.ledger.lastAuthority == m.fab.ledger.lastAuthority
    && m.fab.ledger.fenced <= n.fab.ledger.fenced
    && n.lineage == m.lineage && n.log == m.log && n.origin == m.origin && n.spent == m.spent
    && n.procs.Keys == m.procs.Keys
    && (forall t :: t in m.procs ==> SameWork(m.procs[t], n.procs[t]))
  }

  predicate SameWork(p: Process, q: Process) {
    q.attempt == p.attempt && q.basis == p.basis && q.since == p.since && (Live(q) ==> Live(p))
  }

  lemma QuietTracked(m: Machine, n: Machine)
    requires Tracked(m) && Quiet(m, n)
    ensures Tracked(n)
  {
    forall k ensures Tracks(n.fab.ledger, n.lineage, k) {
      assert Tracks(m.fab.ledger, m.lineage, k);
    }
    forall t | t in n.procs ensures Sourced(n.procs[t], n.lineage) {
      assert Sourced(m.procs[t], m.lineage) && SameWork(m.procs[t], n.procs[t]);
    }
  }

  /** The events that can change a slot or mint an id. */
  predicate Loud(e: Event) {
    e.Begin? || e.VerifyReply? || (e.Do? && e.op.SetInitial?)
  }

  lemma QuietCalls(m: Machine, op: Op)
    requires !op.SetInitial?
    ensures Quiet(m, DoStep(m, op))
  {
    hide PerformWorld, PerformRoutes, PerformBook;
  }

  /** Moving one live attempt along, with the slots as they are, is quiet. */
  lemma QuietMove(m: Machine, n: Machine, t: nat, q: Process)
    requires t in m.procs && n.procs == m.procs[t := q] && SameWork(m.procs[t], q)
    requires n.fab.ledger.slots == m.fab.ledger.slots && n.fab.ledger.index == m.fab.ledger.index
    requires n.fab.ledger.minted == m.fab.ledger.minted && n.fab.ledger.lastAuthority == m.fab.ledger.lastAuthority
    requires m.fab.ledger.fenced <= n.fab.ledger.fenced
    requires n.lineage == m.lineage && n.log == m.log && n.origin == m.origin && n.spent == m.spent
    ensures Quiet(m, n)
  {
  }

  lemma QuietMark(m: Machine, t: nat)
    requires t in m.procs
    ensures Quiet(m, MarkStep(m, t))
  {
    hide Quiet;
    QuietMove(m, MarkStep(m, t), t, MarkStep(m, t).procs[t]);
  }

  lemma QuietSave(m: Machine, t: nat, ok: bool)
    requires t in m.procs
    ensures Quiet(m, SaveStep(m, t, ok))
  {
    hide SnapshotOf, Quiet;
    QuietMove(m, SaveStep(m, t, ok), t, SaveStep(m, t, ok).procs[t]);
  }

  lemma QuietFence(m: Machine, t: nat, applied: bool, unproven: bool)
    requires t in m.procs
    ensures Quiet(m, FenceStep(m, t, applied, unproven))
  {
    hide Quiet;
    QuietMove(m, FenceStep(m, t, applied, unproven), t, FenceStep(m, t, applied, unproven).procs[t]);
  }

  lemma QuietActivate(m: Machine, t: nat, yes: bool)
    requires t in m.procs
    ensures Quiet(m, ActivateStep(m, t, yes))
  {
    hide Quiet;
    QuietMove(m, ActivateStep(m, t, yes), t, ActivateStep(m, t, yes).procs[t]);
  }

  lemma QuietRoute(m: Machine, t: nat)
    requires t in m.procs
    ensures Quiet(m, RouteStep(m, t))
  {
    hide RouteFor, Quiet;
    QuietMove(m, RouteStep(m, t), t, RouteStep(m, t).procs[t]);
  }

  lemma QuietInstall(m: Machine, t: nat, yes: bool)
    requires t in m.procs
    ensures Quiet(m, InstallStep(m, t, yes))
  {
    hide Install, Quiet;
    QuietMove(m, InstallStep(m, t, yes), t, InstallStep(m, t, yes).procs[t]);
  }

  lemma QuietStill(m: Machine, disk: Option<Snapshot>)
    ensures Quiet(m, m) && Quiet(m, m.(disk := disk))
  {
  }

  predicate Names(m: Machine, e: Event) {
    match e
    case Do(_) => true
    case SaveNow => true
    case _ => e.tid in m.procs
  }

  lemma UnknownAttempt(m: Machine, e: Event)
    requires !Names(m, e) && !e.Begin?
    ensures Next(m, e) == m
  {
  }

  lemma QuietSteps(m: Machine, e: Event)
    requires !Loud(e)
    ensures Quiet(m, Next(m, e))
  {
    hide MarkStep, SaveStep, FenceStep, ActivateStep, RouteStep, InstallStep, DoStep, SnapshotOf, Quiet;
    if !Names(m, e) {
      UnknownAttempt(m, e);
      QuietStill(m, None);
    } else {
      match e {
        case Mark(t) => QuietMark(m, t);
        case Save(t, ok) => QuietSave(m, t, ok);
        case FenceReply(t, applied, unproven) => QuietFence(m, t, applied, unproven);
        case ActivateReply(t, yes) => QuietActivate(m, t, yes);
        case BuildRoute(t) => QuietRoute(m, t);
        case RouteReply(t, yes) => QuietInstall(m, t, yes);
        case Do(op) => QuietCalls(m, op);
        case SaveNow => QuietStill(m, Some(SnapshotOf(m.fab)));
      }
    }
  }

  // ----- commits and initial assignments on the ledger -------------------------------

  /** A commit replaces the current assignment of its slot, and of no other; on a slot that is
      not indexed it changes no visible slot at all. */
  lemma CommitCurrent(l: Ledger, a: Attempt, k: SlotKey)
    requires IndexExact(l)
    ensures IndexExact(CommitLedger(l, a))
    ensures CurrentOf(CommitLedger(l, a), k) ==
            if HasSlot(l, a.slot) && k == a.slot then Some(Activated(a)) else CurrentOf(l, k)
  {
    hide Activated, Retire, AddFenced;
  }

  lemma InitialCurrent(l: Ledger, a: Assignment, k: SlotKey)
    requires IndexExact(l)
    ensures IndexExact(SetInitialLedger(l, a))
    ensures CurrentOf(SetInitialLedger(l, a), k) == if k == a.slot then Some(Initial(l, a)) else CurrentOf(l, k)
  {
    hide Initial;
  }

  /** What the validating section hands to an attempt. */
  lemma ValidAttempt(f: Fabric, plan: Plan)
    requires Validate(f, plan).Valid?
    ensures var a := Validate(f, plan).attempt;
            && a.slot == plan.slot && a.next.slot == a.slot && a.source == CurrentOf(f.ledger, a.slot)
            && KeyOf(a.next) == Key(MintedId(f.ledger.minted), MINTED_GENERATION)
            && a.next.authorityGeneration == f.ledger.lastAuthority + 1 && a.next.state.Authorized?
  {
    hide Candidates, BuildContext, Eligible, FirstMatch, FindService, UsesCuda, CurrentOf, MintedId;
  }

  lemma ThrownSpendsOne(f: Fabric, plan: Plan)
    requires Validate(f, plan).Threw?
    ensures Validate(f, plan).minted == f.ledger.minted + 1
  {
    hide Candidates, BuildContext, Eligible, FirstMatch, FindService, CurrentOf;
  }

  /** The validating section spends at most one id and adds at most one attempt. */
  lemma BeginEffect(m: Machine, t: nat, plan: Plan)
    ensures var n := BeginStep(m, t, plan);
            && n.fab.ledger == m.fab.ledger.(minted := n.fab.ledger.minted)
            && m.fab.ledger.minted <= n.fab.ledger.minted <= m.fab.ledger.minted + 1
            && n.lineage == m.lineage && n.log == m.log && n.origin == m.origin && n.spent == m.spent
            && (n.procs == m.procs ||
                (&& t !in m.procs && Validate(m.fab, plan).Valid? && n.fab.ledger.minted == m.fab.ledger.minted + 1
                 && var p := Process(Validate(m.fab, plan).attempt, ToMark(IntentOnly), None, m.fab, |m.log|);
                    n.procs == m.procs[t := p]))
  {
    hide Validate;
    if Validate(m.fab, plan).Threw? {
      ThrownSpendsOne(m.fab, plan);
    }
  }

  lemma ExtendTracks(l: Ledger, n: Ledger, lineage: map<SlotKey, seq<Key>>, k0: SlotKey, a: Assignment, k: SlotKey)
    requires Tracks(l, lineage, k)
    requires CurrentOf(n, k) == if k == k0 then Some(a) else CurrentOf(l, k)
    ensures Tracks(n, Extend(lineage, k0, KeyOf(a)), k)
  {
    hide CurrentOf;
  }

  lemma BeginTracked(m: Machine, t: nat, plan: Plan)
    requires Tracked(m)
    ensures Tracked(BeginStep(m, t, plan))
  {
    hide BeginStep, Validate, CurrentOf;
    var n := BeginStep(m, t, plan);
    BeginEffect(m, t, plan);
    forall k ensures Tracks(n.fab.ledger, n.lineage, k) {
      assert Tracks(m.fab.ledger, m.lineage, k);
      SameCurrent(m.fab.ledger, n.fab.ledger, k);
    }
    if n.procs != m.procs {
      ValidAttempt(m.fab, plan);
      assert Tracks(m.fab.ledger, m.lineage, plan.slot);
    }
    forall u | u in n.procs ensures Sourced(n.procs[u], n.lineage) {
      if u in m.procs {
        assert Sourced(m.procs[u], m.lineage);
      }
    }
  }

  lemma InitialTracked(m: Machine, a: Assignment, now: int)
    requires Tracked(m)
    ensures Tracked(DoStep(m, SetInitial(a, now)))
  {
    hide PerformWorld, PerformRoutes, PerformBook, CurrentOf, IndexExact, SetInitialLedger;
    var n := DoStep(m, SetInitial(a, now));
    if InitialAllowed(m.fab.ledger, a) {
      InitialCurrent(m.fab.ledger, a, a.slot);
      forall k ensures Tracks(n.fab.ledger, n.lineage, k) {
        assert Tracks(m.fab.ledger, m.lineage, k);
        InitialCurrent(m.fab.ledger, a, k);
        ExtendTracks(m.fab.ledger, n.fab.ledger, m.lineage, a.slot, Initial(m.fab.ledger, a), k);
      }
      forall t | t in n.procs ensures Sourced(n.procs[t], n.lineage) {
        assert Sourced(m.procs[t], m.lineage);
      }
    }
  }

  // ----- the committing step ---------------------------------------------------------

  /** With a captured source the slot is visible, and the guard compares it with that source. */
  lemma GuardIsExact(m: Machine, t: nat)
    requires Tracked(m) && At(m, t, ToVerify) && m.procs[t].attempt.source.Some?
    ensures var cur := CurrentOf(m.fab.ledger, m.procs[t].attempt.slot);
            && HasSlot(m.fab.ledger, m.procs[t].attempt.slot) && cur.Some?
            && (Supersedes(m.fab.ledger, m.procs[t].attempt) <==>
                KeyOf(cur.value) != KeyOf(m.procs[t].attempt.source.value))
  {
    assert Sourced(m.procs[t], m.lineage);
    assert Tracks(m.fab.ledger, m.lineage, m.procs[t].attempt.slot);
  }

  predicate Commits(m: Machine, t: nat, verified: bool) {
    At(m, t, ToVerify) && verified && !Supersedes(m.fab.ledger, m.procs[t].attempt)
  }

  lemma VerifyWithoutCommit(m: Machine, t: nat, verified: bool, now: int)
    requires !Commits(m, t, verified)
    ensures Quiet(m, VerifyStep(m, t, verified, now))
  {
    hide Supersedes, CommitLedger;
  }

  /** The lineages after a commit by `a`. */
  function Lineage(m: Machine, a: Attempt): map<SlotKey, seq<Key>> {
    if HasSlot(m.fab.ledger, a.slot) then Extend(m.lineage, a.slot, KeyOf(a.next)) else m.lineage
  }

  function CommitOf(m: Machine, t: nat): Commit
    requires t in m.procs
  {
    Commit(t, m.procs[t].attempt, CurrentOf(m.fab.ledger, m.procs[t].attempt.slot), m.procs[t].basis, m.procs[t].since)
  }

  lemma CommitEffect(m: Machine, t: nat, now: int)
    requires Commits(m, t, true)
    ensures var n := VerifyStep(m, t, true, now);
            var p := m.procs[t];
            && n.fab.ledger == CommitLedger(m.fab.ledger, p.attempt) && n.lineage == Lineage(m, p.attempt)
            && n.log == m.log + [CommitOf(m, t)] && n.procs == m.procs[t := p.(pc := Ended(Completed))]
            && n.origin == m.origin && n.spent == m.spent
            && n.fab.ledger.minted == m.fab.ledger.minted && m.fab.ledger.fenced <= n.fab.ledger.fenced
            && n.fab.world == m.fab.world && n.fab.routes == m.fab.routes
  {
    hide Supersedes, CommitSlots, Extend, CurrentOf, HasSlot;
  }

  lemma CommitTracked(m: Machine, t: nat, now: int)
    requires Tracked(m) && Commits(m, t, true)
    ensures Tracked(VerifyStep(m, t, true, now))
  {
    hide CurrentOf, HasSlot, Supersedes, CommitLedger, Extend, IndexExact, VerifyStep;
    CommitEffect(m, t, now);
    var a := m.procs[t].attempt;
    var n := VerifyStep(m, t, true, now);
    CommitCurrent(m.fab.ledger, a, a.slot);
    forall k ensures Tracks(n.fab.ledger, n.lineage, k) {
      assert Tracks(m.fab.ledger, m.lineage, k);
      CommitCurrent(m.fab.ledger, a, k);
      if HasSlot(m.fab.ledger, a.slot) {
        ExtendTracks(m.fab.ledger, n.fab.ledger, m.lineage, a.slot, Activated(a), k);
      }
    }
    forall u | u in n.procs ensures Sourced(n.procs[u], n.lineage) {
      assert Sourced(m.procs[u], m.lineage);
      ExtendKeepsKeys(m.lineage, a.slot, KeyOf(a.next));
    }
  }

  lemma ExtendKeepsKeys(lineage: map<SlotKey, seq<Key>>, k0: SlotKey, key: Key)
    ensures forall k :: k in lineage ==> k in Extend(lineage, k0, key) && lineage[k] <= Extend(lineage, k0, key)[k]
  {
  }

  /** Every step of every run keeps the lineages in line with the ledger. */
  lemma StepTracked(m: Machine, e: Event)
    requires Tracked(m)
    ensures Tracked(Next(m, e))
  {
    hide Tracked, BeginStep, VerifyStep, DoStep, Commits, Quiet;
    if !Loud(e) {
      QuietSteps(m, e);
      QuietTracked(m, Next(m, e));
    } else {
      match e {
        case Begin(t, plan) => BeginTracked(m, t, plan);
        case Do(op) => InitialTracked(m, op.assignment, op.now);
        case VerifyReply(t, verified, now) =>
          if Commits(m, t, verified) {
            OnlyVerifiedCommits(m, t, verified);
            CommitTracked(m, t, now);
          } else {
            VerifyWithoutCommit(m, t, verified, now);
            QuietTracked(m, Next(m, e));
          }
      }
    }
  }

  lemma OnlyVerifiedCommits(m: Machine, t: nat, verified: bool)
    requires Commits(m, t, verified)
    ensures verified
  {
  }

  // ----- the keys of one slot --------------------------------------------------------

  /** A key that no attempt can be given. */
  predicate Unmintable(k: Key) {
    k.generation != MINTED_GENERATION || k.id == 0
  }

  /** A key that an attempt of this process has been given. */
  predicate Minted(k: Key, spent: nat, minted: nat) {
    k.generation == MINTED_GENERATION && spent < k.id <= minted
  }

  ghost predicate Distinct(h: seq<Key>) {
    forall i, j :: 0 <= i < j < |h| ==> h[i] != h[j]
  }

  ghost predicate Chain(h: seq<Key>, spent: nat, minted: nat) {
    && Distinct(h)
    && (forall i :: 0 <= i < |h| ==> Unmintable(h[i]) || Minted(h[i], spent, minted))
  }

  /** What a slot has had since the process started: all but the assignment it came up with. */
  function Tail(m: Machine, k: SlotKey): seq<Key> {
    if k !in m.lineage then [] else if k in m.origin && m.lineage[k] != [] then m.lineage[k][1..] else m.lineage[k]
  }

  /** The assignment a slot came up with keeps its place, and once it is displaced its boot, if it
      has one, is fenced. */
  ghost predicate OriginOk(m: Machine, k: SlotKey) {
    k in m.origin ==>
      && k in m.lineage && m.lineage[k] != [] && m.lineage[k][0] == KeyOf(m.origin[k])
      && (forall i :: 1 <= i < |m.lineage[k]| ==> Minted(m.lineage[k][i], m.spent, m.fab.ledger.minted))
      && (|m.lineage[k]| == 1 ==> CurrentOf(m.fab.ledger, k) == Some(m.origin[k]))
      && (|m.lineage[k]| > 1 && m.origin[k].workerBoot != 0 ==> m.origin[k].workerBoot in m.fab.ledger.fenced)
  }

  ghost predicate ProcessOk(m: Machine, k: SlotKey, p: Process) {
    Live(p) ==>
      && Minted(KeyOf(p.attempt.next), m.spent, m.fab.ledger.minted)
      && (p.attempt.slot == k ==>
            && KeyOf(p.attempt.next) !in Tail(m, k)
            && (p.attempt.source.Some? ==> k in m.lineage && KeyOf(p.attempt.source.value) in m.lineage[k])
            && (k in m.origin && k in m.lineage && |m.lineage[k]| == 1 ==> p.attempt.source == Some(m.origin[k])))
  }

  predicate Clash(p: Process, q: Process) {
    Live(p) && Live(q) && p.attempt.next.id == q.attempt.next.id
  }

  /** The slot did not come up with a key that will be handed out again. */
  predicate Safe(m: Machine, k: SlotKey) {
    k in m.origin ==> Unmintable(KeyOf(m.origin[k])) || m.origin[k].id <= m.spent
  }

  ghost predicate Follows(h: seq<Key>, a: Key, b: Key) {
    exists i :: 0 <= i < |h| - 1 && h[i] == a && h[i + 1] == b
  }

  ghost predicate CommitOk(c: Commit, lineage: map<SlotKey, seq<Key>>) {
    c.attempt.source.Some? ==>
      && c.displaced.Some? && SameAssignment(c.displaced.value, c.attempt.source.value)
      && c.attempt.slot in lineage
      && Follows(lineage[c.attempt.slot], KeyOf(c.attempt.source.value), KeyOf(c.attempt.next))
  }

  predicate SameSource(c: Commit, d: Commit) {
    && c.attempt.slot == d.attempt.slot && c.attempt.source.Some? && d.attempt.source.Some?
    && KeyOf(c.attempt.source.value) == KeyOf(d.attempt.source.value)
  }

  ghost predicate LogOk(m: Machine, k: SlotKey) {
    && (forall i :: 0 <= i < |m.log| && m.log[i].attempt.slot == k ==> CommitOk(m.log[i], m.lineage))
    && (Safe(m, k) ==>
          forall i, j :: 0 <= i < j < |m.log| && m.log[i].attempt.slot == k ==> !SameSource(m.log[i], m.log[j]))
  }

  /** What is known about the keys of slot `k`. */
  ghost predicate Invariant(m: Machine, k: SlotKey) {
    && Tracked(m) && m.spent <= m.fab.ledger.minted
    && OriginOk(m, k)
    && Chain(Tail(m, k), m.spent, m.fab.ledger.minted)
    && (forall t :: t in m.procs ==> ProcessOk(m, k, m.procs[t]))
    && (forall t, u :: t in m.procs && u in m.procs && t != u ==> !Clash(m.procs[t], m.procs[u]))
    && LogOk(m, k)
  }

  /** The parts of a machine that the keys of `k` depend on. */
  ghost predicate SameKeys(m: Machine, n: Machine, k: SlotKey) {
    && (k in n.lineage <==> k in m.lineage) && (k in m.lineage ==> n.lineage[k] == m.lineage[k])
    && n.origin == m.origin && n.spent == m.spent && m.fab.ledger.minted <= n.fab.ledger.minted
    && CurrentOf(n.fab.ledger, k) == CurrentOf(m.fab.ledger, k) && m.fab.ledger.fenced <= n.fab.ledger.fenced
  }

  lemma SameKeysKeep(m: Machine, n: Machine, k: SlotKey)
    requires SameKeys(m, n, k) && m.spent <= m.fab.ledger.minted
    ensures OriginOk(m, k) ==> OriginOk(n, k)
    ensures Chain(Tail(m, k), m.spent, m.fab.ledger.minted) ==> Chain(Tail(n, k), n.spent, n.fab.ledger.minted)
    ensures Tail(n, k) == Tail(m, k) && (Safe(n, k) <==> Safe(m, k))
  {
    hide CurrentOf;
  }

  lemma SameKeysProcess(m: Machine, n: Machine, k: SlotKey, p: Process, q: Process)
    requires SameKeys(m, n, k) && ProcessOk(m, k, p) && q.attempt == p.attempt && (Live(q) ==> Live(p))
    ensures ProcessOk(n, k, q)
  {
    hide CurrentOf;
  }

  lemma SameLineageLog(m: Machine, n: Machine, k: SlotKey)
    requires LogOk(m, k) && SameKeys(m, n, k) && n.log == m.log
    ensures LogOk(n, k)
  {
    hide Follows, CurrentOf, SameAssignment;
    forall i | 0 <= i < |n.log| && n.log[i].attempt.slot == k ensures CommitOk(n.log[i], n.lineage) {
      assert CommitOk(m.log[i], m.lineage);
    }
  }

  lemma QuietKeeps(m: Machine, n: Machine, k: SlotKey)
    requires Invariant(m, k) && Quiet(m, n)
    ensures Invariant(n, k)
  {
    hide LogOk, ProcessOk, OriginOk, Chain, Tail, Tracked, CurrentOf;
    QuietTracked(m, n);
    SameCurrent(m.fab.ledger, n.fab.ledger, k);
    SameKeysKeep(m, n, k);
    SameLineageLog(m, n, k);
    forall t | t in n.procs ensures ProcessOk(n, k, n.procs[t]) {
      assert SameWork(m.procs[t], n.procs[t]);
      SameKeysProcess(m, n, k, m.procs[t], n.procs[t]);
    }
    forall t, u | t in n.procs && u in n.procs && t != u ensures !Clash(n.procs[t], n.procs[u]) {
      assert SameWork(m.procs[t], n.procs[t]) && SameWork(m.procs[u], n.procs[u]);
      assert !Clash(m.procs[t], m.procs[u]);
    }
  }

  lemma IdsBelow(m: Machine, k: SlotKey, u: nat)
    requires Invariant(m, k) && u in m.procs && Live(m.procs[u])
    ensures m.procs[u].attempt.next.id <= m.fab.ledger.minted
  {
    assert ProcessOk(m, k, m.procs[u]);
  }

  /** An accepted plan adds a process whose key is new and whose source is current. */
  lemma BeginAdds(m: Machine, plan: Plan, k: SlotKey)
    requires Invariant(m, k) && Validate(m.fab, plan).Valid? && m.fab.ledger.minted + 1 < U64_LIMIT
    ensures var a := Validate(m.fab, plan).attempt;
            var n := m.(fab := m.fab.(ledger := m.fab.ledger.(minted := m.fab.ledger.minted + 1)));
            && ProcessOk(n, k, Process(a, ToMark(IntentOnly), None, m.fab, |m.log|))
            && a.next.id == m.fab.ledger.minted + 1
  {
    hide Validate, CurrentOf, LogOk;
    ValidAttempt(m.fab, plan);
    assert Tracks(m.fab.ledger, m.lineage, k);
    assert Chain(Tail(m, k), m.spent, m.fab.ledger.minted);
  }

  lemma BeginKeeps(m: Machine, t: nat, plan: Plan, k: SlotKey)
    requires Invariant(m, k) && BeginStep(m, t, plan).fab.ledger.minted < U64_LIMIT
    ensures Invariant(BeginStep(m, t, plan), k)
  {
    hide BeginStep, Validate, LogOk, ProcessOk, OriginOk, Chain, Tail, Tracked, CurrentOf;
    var n := BeginStep(m, t, plan);
    BeginEffect(m, t, plan);
    BeginTracked(m, t, plan);
    SameCurrent(m.fab.ledger, n.fab.ledger, k);
    SameKeysKeep(m, n, k);
    SameLineageLog(m, n, k);
    if n.procs != m.procs {
      BeginAdds(m, plan, k);
      var a := Validate(m.fab, plan).attempt;
      var p := Process(a, ToMark(IntentOnly), None, m.fab, |m.log|);
      SameKeysProcess(m.(fab := m.fab.(ledger := m.fab.ledger.(minted := m.fab.ledger.minted + 1))), n, k, p, p);
    }
    forall u | u in n.procs ensures ProcessOk(n, k, n.procs[u]) {
      if u in m.procs {
        SameKeysProcess(m, n, k, m.procs[u], n.procs[u]);
      }
    }
    forall u, v | u in n.procs && v in n.procs && u != v ensures !Clash(n.procs[u], n.procs[v]) {
      NewIdIsLast(m, k, u);
      NewIdIsLast(m, k, v);
      if u in m.procs && v in m.procs {
        assert !Clash(m.procs[u], m.procs[v]);
      }
    }
  }

  lemma NewIdIsLast(m: Machine, k: SlotKey, u: nat)
    requires Invariant(m, k)
    ensures u in m.procs && Live(m.procs[u]) ==> m.procs[u].attempt.next.id < m.fab.ledger.minted + 1
  {
    if u in m.procs && Live(m.procs[u]) {
      IdsBelow(m, k, u);
    }
  }

  lemma InitialKeeps(m: Machine, a: Assignment, now: int, k: SlotKey)
    requires Invariant(m, k) && (a.slot == k && CurrentOf(m.fab.ledger, k).None? ==> Unmintable(KeyOf(a)))
    ensures Invariant(DoStep(m, SetInitial(a, now)), k)
  {
    hide LogOk, ProcessOk, OriginOk, Chain, Tail, Tracked, CurrentOf, SetInitialLedger, PerformWorld, PerformRoutes,
      PerformBook, IndexExact;
    var n := DoStep(m, SetInitial(a, now));
    InitialTracked(m, a, now);
    if InitialAllowed(m.fab.ledger, a) {
      TrackedAt(m, k);
      InitialCurrent(m.fab.ledger, a, k);
      InitialSame(m.fab.ledger, a);
      if a.slot == k {
        InitialFirst(m, n, a, k);
      } else {
        SameKeysKeep(m, n, k);
        SameLineageLog(m, n, k);
        forall t | t in n.procs ensures ProcessOk(n, k, n.procs[t]) {
          SameKeysProcess(m, n, k, m.procs[t], n.procs[t]);
        }
      }
    } else {
      assert n.fab.ledger == m.fab.ledger;
      SameKeysKeep(m, n, k);
      SameLineageLog(m, n, k);
      forall t | t in n.procs ensures ProcessOk(n, k, n.procs[t]) {
        SameKeysProcess(m, n, k, m.procs[t], n.procs[t]);
      }
    }
  }

  lemma TrackedAt(m: Machine, k: SlotKey)
    requires Tracked(m)
    ensures IndexExact(m.fab.ledger) && Tracks(m.fab.ledger, m.lineage, k)
  {
  }

  lemma InitialSame(l: Ledger, a: Assignment)
    ensures SetInitialLedger(l, a).minted == l.minted && SetInitialLedger(l, a).fenced == l.fenced
  {
  }

  /** The first assignment of a slot that had none. */
  lemma InitialFirst(m: Machine, n: Machine, a: Assignment, k: SlotKey)
    requires Invariant(m, k) && k !in m.lineage && Unmintable(KeyOf(a))
    requires n.lineage == Extend(m.lineage, k, KeyOf(a)) && n.procs == m.procs && n.log == m.log
    requires n.origin == m.origin && n.spent == m.spent && n.fab.ledger.minted == m.fab.ledger.minted
    ensures OriginOk(n, k) && Chain(Tail(n, k), n.spent, n.fab.ledger.minted) && LogOk(n, k)
    ensures forall t :: t in n.procs ==> ProcessOk(n, k, n.procs[t])
  {
    hide CurrentOf, Follows, SameAssignment;
    forall t | t in n.procs ensures ProcessOk(n, k, n.procs[t]) {
      assert ProcessOk(m, k, m.procs[t]);
    }
    forall i | 0 <= i < |n.log| && n.log[i].attempt.slot == k ensures CommitOk(n.log[i], n.lineage) {
      assert CommitOk(m.log[i], m.lineage);
    }
  }

  // ----- a commit on the slot --------------------------------------------------------

  lemma ChainExtends(h: seq<Key>, key: Key, spent: nat, minted: nat)
    requires Chain(h, spent, minted) && key !in h && (Unmintable(key) || Minted(key, spent, minted))
    ensures Chain(h + [key], spent, minted)
  {
  }

  lemma FollowsExtends(h: seq<Key>, key: Key, a: Key, b: Key)
    requires Follows(h, a, b)
    ensures Follows(h + [key], a, b)
  {
    var i :| 0 <= i < |h| - 1 && h[i] == a && h[i + 1] == b;
    var g := h + [key];
    assert g[i] == a && g[i + 1] == b;
  }

  lemma LastFollows(h: seq<Key>, key: Key)
    requires h != []
    ensures Follows(h + [key], h[|h| - 1], key)
  {
    var g := h + [key];
    assert g[|h| - 1] == h[|h| - 1] && g[|h|] == key;
  }

  lemma FollowedIsNotLast(h: seq<Key>, a: Key, b: Key)
    requires Distinct(h) && Follows(h, a, b)
    ensures a != h[|h| - 1]
  {
    var i :| 0 <= i < |h| - 1 && h[i] == a && h[i + 1] == b;
    assert h[i] != h[|h| - 1];
  }

  /** On a safe slot no key comes twice. */
  lemma SafeIsDistinct(m: Machine, k: SlotKey)
    requires Invariant(m, k) && Safe(m, k) && k in m.lineage
    ensures Distinct(m.lineage[k])
  {
    hide CurrentOf, LogOk, ProcessOk, Clash;
    var h := m.lineage[k];
    if k in m.origin {
      forall i, j | 0 <= i < j < |h| ensures h[i] != h[j] {
        assert h[j] == Tail(m, k)[j - 1];
        if i > 0 {
          assert h[i] == Tail(m, k)[i - 1];
        }
      }
    }
  }

  /** On a safe slot no earlier commit had the source that is committed now. */
  lemma SourceNotUsedBefore(m: Machine, t: nat, i: nat)
    requires Commits(m, t, true) && Invariant(m, m.procs[t].attempt.slot) && Safe(m, m.procs[t].attempt.slot)
    requires i < |m.log| && m.log[i].attempt.slot == m.procs[t].attempt.slot
    ensures !SameSource(m.log[i], CommitOf(m, t))
  {
    hide Supersedes, CurrentOf, HasSlot, Chain, Follows, ProcessOk, OriginOk, Distinct, Safe;
    var a := m.procs[t].attempt;
    var c := m.log[i].attempt;
    assert CommitOk(m.log[i], m.lineage);
    TrackedAt(m, a.slot);
    if c.source.Some? {
      SafeIsDistinct(m, a.slot);
      FollowedIsNotLast(m.lineage[a.slot], KeyOf(c.source.value), KeyOf(c.next));
    }
    if a.source.Some? {
      GuardIsExact(m, t);
    }
  }

  lemma NewCommitOk(m: Machine, t: nat)
    requires Tracked(m) && Commits(m, t, true)
    ensures CommitOk(CommitOf(m, t), Lineage(m, m.procs[t].attempt))
  {
    hide CurrentOf, HasSlot, Follows, Supersedes;
    var a := m.procs[t].attempt;
    if a.source.Some? {
      GuardIsExact(m, t);
      TrackedAt(m, a.slot);
      LastFollows(m.lineage[a.slot], KeyOf(a.next));
    }
  }

  lemma CommitLogKeeps(m: Machine, t: nat, now: int, k: SlotKey)
    requires Invariant(m, k) && Commits(m, t, true)
    ensures LogOk(VerifyStep(m, t, true, now), k)
  {
    hide CurrentOf, HasSlot, Supersedes, Follows, SameAssignment, VerifyStep, ProcessOk, OriginOk, Chain, Tail, Tracked,
      CommitLedger;
    CommitEffect(m, t, now);
    var n := VerifyStep(m, t, true, now);
    var a := m.procs[t].attempt;
    NewCommitOk(m, t);
    forall i | 0 <= i < |n.log| && n.log[i].attempt.slot == k ensures CommitOk(n.log[i], n.lineage) {
      if i < |m.log| {
        assert CommitOk(m.log[i], m.lineage);
        var c := m.log[i].attempt;
        if c.source.Some? && k == a.slot {
          FollowsExtends(m.lineage[k], KeyOf(a.next), KeyOf(c.source.value), KeyOf(c.next));
        }
      }
    }
    if Safe(n, k) {
      forall i, j | 0 <= i < j < |n.log| && n.log[i].attempt.slot == k ensures !SameSource(n.log[i], n.log[j]) {
        if j == |m.log| && a.slot == k {
          SourceNotUsedBefore(m, t, i);
        }
      }
    }
  }

  /** A commit on the slot itself. */
  lemma CommitHere(m: Machine, t: nat, now: int)
    requires Commits(m, t, true) && Invariant(m, m.procs[t].attempt.slot)
             && HasSlot(m.fab.ledger, m.procs[t].attempt.slot)
    ensures var n := VerifyStep(m, t, true, now);
            var k := m.procs[t].attempt.slot;
            && OriginOk(n, k) && Chain(Tail(n, k), n.spent, n.fab.ledger.minted)
            && Tail(n, k) == Tail(m, k) + [KeyOf(m.procs[t].attempt.next)]
            && k in n.lineage && (k in m.origin ==> |n.lineage[k]| > 1)
            && (k in m.lineage ==> m.lineage[k] <= n.lineage[k])
  {
    hide CurrentOf, HasSlot, Supersedes, VerifyStep, LogOk, Clash, CommitSlots, IndexExact;
    CommitEffect(m, t, now);
    var n := VerifyStep(m, t, true, now);
    var p := m.procs[t];
    var k := p.attempt.slot;
    assert ProcessOk(m, k, p);
    TrackedAt(m, k);
    assert Tail(n, k) == Tail(m, k) + [KeyOf(p.attempt.next)];
    ChainExtends(Tail(m, k), KeyOf(p.attempt.next), m.spent, m.fab.ledger.minted);
  }

  lemma CommitKeeps(m: Machine, t: nat, now: int, k: SlotKey)
    requires Invariant(m, k) && Commits(m, t, true)
    ensures Invariant(VerifyStep(m, t, true, now), k)
  {
    hide CurrentOf, HasSlot, Supersedes, VerifyStep, LogOk, OriginOk, Chain, Tracked, CommitLedger, Extend, IndexExact;
    CommitEffect(m, t, now);
    CommitTracked(m, t, now);
    CommitLogKeeps(m, t, now, k);
    var n := VerifyStep(m, t, true, now);
    var a := m.procs[t].attempt;
    forall u, v | u in n.procs && v in n.procs && u != v ensures !Clash(n.procs[u], n.procs[v]) {
      assert !Clash(m.procs[u], m.procs[v]);
    }
    if a.slot == k && HasSlot(m.fab.ledger, k) {
      CommitHere(m, t, now);
      forall u | u in n.procs ensures ProcessOk(n, k, n.procs[u]) {
        assert ProcessOk(m, k, m.procs[u]) && (u != t ==> !Clash(m.procs[t], m.procs[u]));
      }
    } else {
      CommitElsewhere(m, t, now, k);
      hide ProcessOk, Tail;
      SameKeysKeep(m, n, k);
      forall u | u in n.procs ensures ProcessOk(n, k, n.procs[u]) {
        SameKeysProcess(m, n, k, m.procs[u], n.procs[u]);
      }
    }
  }

  lemma CommitElsewhere(m: Machine, t: nat, now: int, k: SlotKey)
    requires Tracked(m) && Commits(m, t, true) && (m.procs[t].attempt.slot != k || !HasSlot(m.fab.ledger, k))
    ensures SameKeys(m, VerifyStep(m, t, true, now), k)
  {
    hide CurrentOf, HasSlot, Supersedes, VerifyStep, CommitLedger, IndexExact;
    CommitEffect(m, t, now);
    TrackedAt(m, k);
    CommitCurrent(m.fab.ledger, m.procs[t].attempt, k);
  }

  // ----- over whole runs -------------------------------------------------------------

  /** Initial assignments of the slot are given keys that no attempt is given. */
  predicate Admissible(e: Event, k: SlotKey) {
    e.Do? && e.op.SetInitial? && e.op.assignment.slot == k ==> Unmintable(KeyOf(e.op.assignment))
  }

  lemma StepKeeps(m: Machine, e: Event, k: SlotKey)
    requires Invariant(m, k) && (Admissible(e, k) || CurrentOf(m.fab.ledger, k).Some?)
    requires Next(m, e).fab.ledger.minted < U64_LIMIT
    ensures Invariant(Next(m, e), k)
  {
    hide Invariant, BeginStep, VerifyStep, DoStep, Commits, Quiet, CurrentOf;
    if !Loud(e) {
      QuietSteps(m, e);
      QuietKeeps(m, Next(m, e), k);
    } else {
      match e {
        case Begin(t, plan) => BeginKeeps(m, t, plan, k);
        case Do(op) => InitialKeeps(m, op.assignment, op.now, k);
        case VerifyReply(t, verified, now) =>
          if Commits(m, t, verified) {
            OnlyVerifiedCommits(m, t, verified);
            CommitKeeps(m, t, now, k);
          } else {
            VerifyWithoutCommit(m, t, verified, now);
            QuietKeeps(m, Next(m, e), k);
          }
      }
    }
  }
}
