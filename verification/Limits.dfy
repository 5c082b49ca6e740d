/** Where the guarantees end. Each limit is shown to be the exact one: within it the property holds of
    every run, and beyond it there is a run, made of calls that the facade accepts, that breaks it. */
module Limits {
  import opened Types
  import opened Routing
  import opened Fabric
  import opened Operations
  import opened Durable
  import opened Persistence
  import opened Cutover
  import opened Authority
  import opened Revocation
  import opened Attempts
  import opened Restart
  import opened Strays
  import opened Witnesses

  // ----- common steps ----------------------------------------------------------------

  lemma EquipAdmits(m: Machine, o: Offer)
    requires Blank(m.fab.world) && Open(m.fab, o)
    ensures var n := Run(m, Equip(o.target, o.boot));
            && Admits(n.fab, o) && n == m.(fab := n.fab) && n.fab.ledger == m.fab.ledger && n.fab.routes == m.fab.routes
            && n.fab.world.services == m.fab.world.services && n.fab.barrier == m.fab.barrier
  {
    hide Run, Equip, Equipped, FindService, CurrentOf;
    EquipRuns(m, o.target, o.boot);
  }

  /** The current assignment after a commit by an attempt that captured it. */
  lemma CommittedCurrent(l: Ledger, a: Attempt, k: SlotKey)
    requires IndexExact(l)
    ensures var n := CommitLedger(FenceSource(l, a), a);
            && IndexExact(n) && n.minted == l.minted && n.epoch == l.epoch
            && n.lastAuthority == a.next.authorityGeneration
            && CurrentOf(n, k) == (if HasSlot(l, a.slot) && k == a.slot then Some(Activated(a)) else CurrentOf(l, k))
            && (forall b :: b in n.fenced ==>
                b in l.fenced || (a.source.Some? && b == a.source.value.workerBoot && b != 0))
  {
    hide CommitSlots, Activated, HasSlot;
    SameCurrent(l, FenceSource(l, a), k);
    SameHas(l, FenceSource(l, a), a.slot);
    CommitCurrent(FenceSource(l, a), a, k);
  }

  lemma SameHas(l: Ledger, n: Ledger, k: SlotKey)
    requires l.slots == n.slots && l.index == n.index
    ensures HasSlot(l, k) <==> HasSlot(n, k)
  {
  }

  lemma CurrentIsVisible(l: Ledger, k: SlotKey)
    requires CurrentOf(l, k).Some?
    ensures HasSlot(l, k)
  {
  }

  // ----- two commits for one source --------------------------------------------------

  /** The slot came up with a key that the process hands out after `Distance` others. */
  predicate Reusable(l: Ledger, k: SlotKey) {
    CurrentOf(l, k).Some? && !SafeSlot(l, k) && CurrentOf(l, k).value.id < U64_LIMIT - 1
  }

  function Distance(l: Ledger, k: SlotKey): (n: nat)
    requires Reusable(l, k)
    ensures n > 0
  {
    CurrentOf(l, k).value.id - l.minted
  }

  /** Attempts begin until one has been given the slot's own key, and one more; then these two
      commit, one after the other. */
  function Rivals(l: Ledger, o: Offer): seq<Event>
    requires Reusable(l, o.slot)
  {
    var n := Distance(l, o.slot);
    Equip(o.target, o.boot) + BeginsFrom(0, n + 1, PlanFor(o)) + IntentScript(n - 1, Yes(0)) + IntentScript(n, Yes(0))
  }

  /** Two attempts wait with one source; the first has been given that source's key. */
  lemma BothCommit(z: Machine, t: nat, u: nat)
    requires t != u && Poised(z, t) && Poised(z, u) && IndexExact(z.fab.ledger)
    requires var a, b := z.procs[t].attempt, z.procs[u].attempt;
             && a.slot == b.slot && a.source.Some? && a.source == b.source == CurrentOf(z.fab.ledger, a.slot)
             && KeyOf(a.next) == KeyOf(a.source.value)
    ensures var n := Run(Run(z, IntentScript(t, Yes(0))), IntentScript(u, Yes(0)));
            && |n.log| == |z.log| + 2 && z.log <= n.log && n.fab.ledger.minted == z.fab.ledger.minted
            && n.log[|z.log|].attempt == z.procs[t].attempt && n.log[|z.log| + 1].attempt == z.procs[u].attempt
  {
    hide Run, IntentScript, CurrentOf, CommitLedger, FenceSource, IndexExact, RouteFor, Install, HasSlot;
    var a, b := z.procs[t].attempt, z.procs[u].attempt;
    YesCommits(z, t, 0);
    var x := Run(z, IntentScript(t, Yes(0)));
    CurrentIsVisible(z.fab.ledger, a.slot);
    CommittedCurrent(z.fab.ledger, a, a.slot);
    ActivatedKey(a);
    YesCommits(x, u, 0);
    CommittedCurrent(x.fab.ledger, b, b.slot);
  }

  lemma RivalsCommitTwice(f: Fabric, disk: Option<Snapshot>, checkpointing: bool, o: Offer)
    requires IndexExact(f.ledger) && Blank(f.world) && Open(f, o) && Reusable(f.ledger, o.slot)
    ensures var n := Run(Start(f, disk, checkpointing), Rivals(f.ledger, o));
            && IdsLeft(n) && |n.log| == 2 && SameSource(n.log[0], n.log[1]) && n.log[0].attempt.slot == o.slot
  {
    var i := Distance(f.ledger, o.slot);
    var m := Start(f, disk, checkpointing);
    assert m.procs == map[] && m.log == [];
    hide Run, Start, Equip, BeginsFrom, IntentScript, CurrentOf, PlanFor, IndexExact, Open, Distance;
    var e, b := Equip(o.target, o.boot), BeginsFrom(0, i + 1, PlanFor(o));
    var s, t := IntentScript(i - 1, Yes(0)), IntentScript(i, Yes(0));
    EquipAdmits(m, o);
    var x := Run(m, e);
    SpendIds(x, 0, i + 1, o);
    var z := Run(x, b);
    ReadyToRival(f, x, z, o);
    BothCommit(z, i - 1, i);
    RunConcat(m, e, b);
    RunConcat(m, e + b, s);
    RunConcat(m, e + b + s, t);
  }

  lemma ReadyToRival(f: Fabric, x: Machine, z: Machine, o: Offer)
    requires IndexExact(f.ledger) && Reusable(f.ledger, o.slot) && x.fab.ledger == f.ledger
    requires AllWait(x, z, 0, Distance(f.ledger, o.slot) + 1, o)
    ensures var i := Distance(f.ledger, o.slot);
            && Poised(z, i - 1) && Poised(z, i) && IndexExact(z.fab.ledger)
            && var a, b := z.procs[i - 1].attempt, z.procs[i].attempt;
            && a.slot == b.slot == o.slot && a.source.Some? && a.source == b.source == CurrentOf(z.fab.ledger, a.slot)
            && KeyOf(a.next) == KeyOf(a.source.value) && z.fab.ledger.minted == CurrentOf(f.ledger, o.slot).value.id + 1
  {
    hide CurrentOf, Poised;
    var i := Distance(f.ledger, o.slot);
    SameCurrent(f.ledger, z.fab.ledger, o.slot);
    var source := CurrentOf(f.ledger, o.slot);
    assert Waits(z, i - 1, source, o, f.ledger.minted) && Waits(z, i, source, o, f.ledger.minted);
  }

  ghost predicate Twice(log: seq<Commit>, k: SlotKey) {
    exists i, j :: 0 <= i < j < |log| && log[i].attempt.slot == k && SameSource(log[i], log[j])
  }

  /** Two attempts that captured one source commit on the slot. */
  ghost predicate CommitsTwice(m: Machine, es: seq<Event>, k: SlotKey) {
    Covered(m.fab.ledger, es, k) && IdsLeft(Run(m, es)) && Twice(Run(m, es).log, k)
  }

  /** In a process that knows a lenient service but no target yet, as after every restart, two
      attempts with one source can both commit on the slot if and only if the slot came up with a key
      that the process hands out again. */
  lemma SecondCommitPossibleIff(f: Fabric, disk: Option<Snapshot>, checkpointing: bool, o: Offer)
    requires IndexExact(f.ledger) && Blank(f.world) && Open(f, o)
    requires CurrentOf(f.ledger, o.slot).Some? ==> CurrentOf(f.ledger, o.slot).value.id < U64_LIMIT - 1
    ensures (exists es :: CommitsTwice(Start(f, disk, checkpointing), es, o.slot)) <==> !SafeSlot(f.ledger, o.slot)
  {
    var m := Start(f, disk, checkpointing);
    assert m.fab == f;
    hide Run, Start, IndexExact, Open, SameSource, Covered, Rivals, SafeSlot, CurrentOf;
    if es :| CommitsTwice(m, es, o.slot) {
      var log := Run(m, es).log;
      var i, j :| 0 <= i < j < |log| && log[i].attempt.slot == o.slot && SameSource(log[i], log[j]);
      AtMostOneCommitPerSource(f, disk, checkpointing, es, i, j);
    }
    if !SafeSlot(f.ledger, o.slot) {
      UnsafeIsAssigned(f.ledger, o.slot);
      RivalsCommitTwice(f, disk, checkpointing, o);
      assert CommitsTwice(m, Rivals(f.ledger, o), o.slot);
    }
  }

  lemma UnsafeIsAssigned(l: Ledger, k: SlotKey)
    requires !SafeSlot(l, k)
    ensures CurrentOf(l, k).Some? && forall es :: Covered(l, es, k)
  {
    hide CurrentOf;
  }

  lemma VerifyForgets(m: Machine, t: nat, verified: bool, now: int, origin: map<SlotKey, Assignment>)
    ensures VerifyStep(m.(origin := origin), t, verified, now) == VerifyStep(m, t, verified, now).(origin := origin)
  {
    hide CommitSection, Extend, HasSlot, CurrentOf;
  }

  lemma BeginForgets(m: Machine, t: nat, plan: Plan, origin: map<SlotKey, Assignment>)
    ensures BeginStep(m.(origin := origin), t, plan) == BeginStep(m, t, plan).(origin := origin)
  {
    hide BeginSection, Validate;
  }

  lemma CheckpointsForget(m: Machine, t: nat, ok: bool, origin: map<SlotKey, Assignment>)
    ensures MarkStep(m.(origin := origin), t) == MarkStep(m, t).(origin := origin)
    ensures SaveStep(m.(origin := origin), t, ok) == SaveStep(m, t, ok).(origin := origin)
  {
    hide MarkTxn, SnapshotOf;
  }

  lemma FencingForgets(m: Machine, t: nat, applied: bool, unproven: bool, origin: map<SlotKey, Assignment>)
    ensures FenceStep(m.(origin := origin), t, applied, unproven)
            == FenceStep(m, t, applied, unproven).(origin := origin)
    ensures ActivateStep(m.(origin := origin), t, applied) == ActivateStep(m, t, applied).(origin := origin)
  {
    hide FenceSection, Note;
  }

  lemma RoutingForgets(m: Machine, t: nat, yes: bool, origin: map<SlotKey, Assignment>)
    ensures RouteStep(m.(origin := origin), t) == RouteStep(m, t).(origin := origin)
    ensures InstallStep(m.(origin := origin), t, yes) == InstallStep(m, t, yes).(origin := origin)
  {
    hide InstallSection, RouteFor;
  }

  lemma StepForgets(m: Machine, e: Event, origin: map<SlotKey, Assignment>)
    ensures Next(m.(origin := origin), e) == Next(m, e).(origin := origin)
  {
    hide BeginStep, MarkStep, SaveStep, FenceStep, ActivateStep, RouteStep, InstallStep, VerifyStep, Perform,
      SnapshotOf, InitialAllowed;
    match e {
      case Begin(t, plan) => BeginForgets(m, t, plan, origin);
      case VerifyReply(t, verified, now) => VerifyForgets(m, t, verified, now, origin);
      case Mark(t) => CheckpointsForget(m, t, true, origin);
      case Save(t, ok) => CheckpointsForget(m, t, ok, origin);
      case FenceReply(t, applied, unproven) => FencingForgets(m, t, applied, unproven, origin);
      case ActivateReply(t, yes) => FencingForgets(m, t, yes, true, origin);
      case BuildRoute(t) => RoutingForgets(m, t, true, origin);
      case RouteReply(t, yes) => RoutingForgets(m, t, yes, origin);
      case _ =>
    }
  }

  /** What a run does does not depend on what the process came up with. */
  lemma {:induction false} RunForgets(m: Machine, es: seq<Event>, origin: map<SlotKey, Assignment>)
    ensures Run(m.(origin := origin), es) == Run(m, es).(origin := origin)
    decreases |es|
  {
    hide Next;
    if es != [] {
      StepForgets(m, es[0], origin);
      RunForgets(Next(m, es[0]), es[1..], origin);
    }
  }

  lemma InitialIsAStart(f: Fabric, disk: Option<Snapshot>, checkpointing: bool, a: Assignment, now: int)
    requires IndexExact(f.ledger) && InitialAllowed(f.ledger, a)
    ensures Next(Start(f, disk, checkpointing), Do(SetInitial(a, now))) ==
            Start(Perform(f, SetInitial(a, now)), disk, checkpointing).(origin := View(f.ledger))
  {
    hide CurrentOf, IndexExact, View, SetInitialLedger, PerformWorld, PerformRoutes, PerformBook;
    var l, n := f.ledger, SetInitialLedger(f.ledger, a);
    InitialSame(l, a);
    forall k ensures CurrentOf(n, k) == if k == a.slot then Some(Initial(l, a)) else CurrentOf(l, k) {
      InitialCurrent(l, a, k);
    }
    ViewDomain(l);
    WrittenView(l, n, a.slot, Initial(l, a));
    assert Extend(FirstKeys(View(l)), a.slot, KeyOf(a)) == FirstKeys(View(n)) by {
      assert [] + [KeyOf(a)] == [KeyOf(Initial(l, a))];
    }
  }

  /** The same for a slot that is given its initial assignment in the process: after it, two attempts with
      one source can both commit if and only if it carries a key that the process has yet to hand out. */
  lemma SecondCommitUnderInitialIff(f: Fabric, disk: Option<Snapshot>, checkpointing: bool, a: Assignment, now: int,
                                    o: Offer)
    requires IndexExact(f.ledger) && Blank(f.world) && InitialAllowed(f.ledger, a) && a.slot == o.slot
    requires Open(Perform(f, SetInitial(a, now)), o) && a.id < U64_LIMIT - 1
    ensures (exists es :: CommitsTwice(Next(Start(f, disk, checkpointing), Do(SetInitial(a, now))), es, o.slot)) <==>
            !Unmintable(KeyOf(a)) && a.id > f.ledger.minted
  {
    var g := Perform(f, SetInitial(a, now));
    assert g.ledger == SetInitialLedger(f.ledger, a) && g.world == f.world by { hide PerformRoutes, PerformBook; }
    InitialCurrent(f.ledger, a, a.slot);
    InitialSame(f.ledger, a);
    InitialIsAStart(f, disk, checkpointing, a, now);
    SecondCommitPossibleIff(g, disk, checkpointing, o);
    hide Run, Start, IndexExact, Open, Covered, CurrentOf, Next, Perform, View, Twice, SetInitialLedger, Blank;
    var m, n := Start(g, disk, checkpointing), Next(Start(f, disk, checkpointing), Do(SetInitial(a, now)));
    forall es ensures CommitsTwice(n, es, o.slot) <==> CommitsTwice(m, es, o.slot) {
      RunForgets(m, es, View(f.ledger));
    }
  }

  lemma ReloadedLedger(s: Snapshot, k: SlotKey)
    ensures IndexExact(Reload(s).ledger) && Reload(s).ledger.minted == 0 && Blank(Reload(s).world)
    ensures var last := LastActive(s.assignments, k);
            var cur := CurrentOf(Reload(s).ledger, k);
            (cur.Some? <==> last.Some?) && (cur.Some? ==> KeyOf(cur.value) == KeyOf(last.value))
  {
    hide LoadLedger, InstallAll, MarkRevalidation, CurrentOf, LastActive, DeclareAll, SetMembers;
    var z := Normalize(s);
    LoadFrame(z);
    LoadedCurrent(z, k);
    SameCurrent(Load(z).ledger, Boot(z).ledger, k);
  }

  /** After a restart that happens on exactly the slots whose assignment was committed by an attempt:
      ids start over, and every attempt gives generation two. */
  lemma SecondCommitAfterRestartIff(s: Snapshot, o: Offer)
    requires Open(Reload(s), o)
    requires LastActive(s.assignments, o.slot).Some? ==> LastActive(s.assignments, o.slot).value.id < U64_LIMIT - 1
    ensures (exists es :: CommitsTwice(Incarnation(s), es, o.slot)) <==>
            var last := LastActive(s.assignments, o.slot);
            last.Some? && last.value.generation == MINTED_GENERATION && last.value.id != 0
  {
    hide Reload, Start, IndexExact, Open, Blank, CurrentOf, LastActive, CommitsTwice;
    assert Incarnation(s) == Start(Reload(s), Some(s), true);
    ReloadedLedger(s, o.slot);
    SecondCommitPossibleIff(Reload(s), Some(s), true, o);
    assert SafeSlot(Reload(s).ledger, o.slot) <==>
           var last := LastActive(s.assignments, o.slot);
           last.None? || last.value.generation != MINTED_GENERATION || last.value.id == 0;
  }

  // ----- a null boot comes back ------------------------------------------------------

  /** The authorization is accepted although its assignment has been replaced. */
  ghost predicate ComesBack(m: Machine, es: seq<Event>, auth: Authorization) {
    && IdsLeft(Run(m, es))
    && CurrentOf(Run(m, es).fab.ledger, auth.slot) != CurrentOf(m.fab.ledger, auth.slot)
    && Accepts(Run(m, es).fab, auth)
  }

  /** Attempts begin until one has been given the slot's own key; that one commits. */
  function Return(l: Ledger, o: Offer): seq<Event>
    requires Reusable(l, o.slot)
  {
    var n := Distance(l, o.slot);
    Equip(o.target, o.boot) + BeginsFrom(0, n, PlanFor(o)) + IntentScript(n - 1, Yes(0))
  }

  lemma InstallUnblocks(rs: Routes, e: RouteEntry, k: SlotKey)
    requires !RouteBlocks(rs, k) && e.state.Acknowledged?
    ensures !RouteBlocks(Install(rs, e), k)
  {
    if e.slot != k {
      InstallElsewhere(rs, e, k);
    } else if Installable(rs, e) && FindRoute(rs, k).Some? {
      SameFirst(rs, Install(rs, e), k);
    }
  }

  /** A commit under the slot's own key, for the null boot, looks the same to the gate. */
  lemma SameToTheGate(z: Machine, t: nat, auth: Authorization)
    requires Poised(z, t) && IndexExact(z.fab.ledger) && Accepts(z.fab, auth) && auth.workerBoot == 0
    requires var a := z.procs[t].attempt;
             && a.slot == auth.slot && a.source == CurrentOf(z.fab.ledger, a.slot)
             && KeyOf(a.next) == Key(auth.assignment, auth.assignmentGeneration)
             && a.next.workerBoot == 0 && a.next.routeGeneration == auth.routeGeneration
    ensures var n := Run(z, IntentScript(t, Yes(0)));
            && CurrentOf(n.fab.ledger, auth.slot) == Some(Activated(z.procs[t].attempt)) && Accepts(n.fab, auth)
            && n.fab.ledger.minted == z.fab.ledger.minted
  {
    var a := z.procs[t].attempt;
    GateFields(z.fab, auth);
    YesCommits(z, t, 0);
    var n := Run(z, IntentScript(t, Yes(0)));
    GateFields(n.fab, auth);
    InstallUnblocks(z.fab.routes, RouteFor(z.fab, a), auth.slot);
    hide Run, IntentScript, Accepts, CurrentOf, RouteBlocks, Install, RouteFor, CommitLedger, FenceSource, IndexExact,
      HasSlot, Poised;
    CurrentIsVisible(z.fab.ledger, auth.slot);
    CommittedCurrent(z.fab.ledger, a, auth.slot);
  }

  lemma ReturnsUnderItsKey(f: Fabric, disk: Option<Snapshot>, checkpointing: bool, o: Offer, auth: Authorization)
    requires IndexExact(f.ledger) && Blank(f.world) && Open(f, o) && Reusable(f.ledger, o.slot) && Accepts(f, auth)
    requires o.slot == auth.slot && o.boot == 0 == auth.workerBoot && o.routeGeneration == auth.routeGeneration
    ensures var n := Run(Start(f, disk, checkpointing), Return(f.ledger, o));
            && IdsLeft(n) && Accepts(n.fab, auth)
            && CurrentOf(n.fab.ledger, auth.slot) != CurrentOf(f.ledger, auth.slot)
  {
    var i := Distance(f.ledger, o.slot);
    var m := Start(f, disk, checkpointing);
    assert m.procs == map[] && m.fab == f;
    hide Run, Start, Equip, BeginsFrom, IntentScript, CurrentOf, PlanFor, IndexExact, Distance, FindService, Accepts;
    var e, b, s := Equip(o.target, o.boot), BeginsFrom(0, i, PlanFor(o)), IntentScript(i - 1, Yes(0));
    EquipAdmits(m, o);
    var x := Run(m, e);
    SpendIds(x, 0, i, o);
    var z := Run(x, b);
    ReadyToReturn(f, x, z, o, auth);
    SameToTheGate(z, i - 1, auth);
    RunConcat(m, e, b);
    RunConcat(m, e + b, s);
  }

  lemma ReadyToReturn(f: Fabric, x: Machine, z: Machine, o: Offer, auth: Authorization)
    requires IndexExact(f.ledger) && Reusable(f.ledger, o.slot) && x.fab.ledger == f.ledger && x.fab.routes == f.routes
    requires AllWait(x, z, 0, Distance(f.ledger, o.slot), o) && Accepts(f, auth)
    requires o.slot == auth.slot && o.boot == 0 == auth.workerBoot && o.routeGeneration == auth.routeGeneration
    ensures var i := Distance(f.ledger, o.slot);
            && Poised(z, i - 1) && IndexExact(z.fab.ledger) && Accepts(z.fab, auth)
            && var a := z.procs[i - 1].attempt;
            && a.slot == auth.slot && a.source == CurrentOf(z.fab.ledger, a.slot)
            && KeyOf(a.next) == Key(auth.assignment, auth.assignmentGeneration)
            && a.next.workerBoot == 0 && a.next.routeGeneration == auth.routeGeneration && a.next.target == o.target
            && z.fab.ledger.minted == CurrentOf(f.ledger, o.slot).value.id
  {
    GateFields(f, auth);
    GateFields(z.fab, auth);
    hide CurrentOf, Poised, Accepts, RouteBlocks;
    var i := Distance(f.ledger, o.slot);
    SameCurrent(f.ledger, z.fab.ledger, o.slot);
    assert Waits(z, i - 1, CurrentOf(f.ledger, o.slot), o, f.ledger.minted);
  }

  /** For the null boot, an authorization that the process accepts when it comes up can be accepted
      again after its assignment was replaced if and only if the process hands out its key again. */
  lemma NullBootReturnsIff(f: Fabric, disk: Option<Snapshot>, checkpointing: bool, o: Offer, auth: Authorization)
    requires IndexExact(f.ledger) && Blank(f.world) && Open(f, o) && Accepts(f, auth)
    requires o.slot == auth.slot && o.boot == 0 == auth.workerBoot && o.routeGeneration == auth.routeGeneration
    requires CurrentOf(f.ledger, o.slot).Some? ==> CurrentOf(f.ledger, o.slot).value.id < U64_LIMIT - 1
    ensures (exists es :: ComesBack(Start(f, disk, checkpointing), es, auth)) <==> !SafeSlot(f.ledger, auth.slot)
  {
    var m := Start(f, disk, checkpointing);
    assert m.fab == f;
    hide Run, Start, IndexExact, Open, Return, Accepts, CurrentOf;
    if es :| ComesBack(m, es, auth) {
      ReturnNeedsReuse(f, disk, checkpointing, es, auth);
    }
    if !SafeSlot(f.ledger, auth.slot) {
      ReturnsUnderItsKey(f, disk, checkpointing, o, auth);
      assert ComesBack(m, Return(f.ledger, o), auth);
    }
  }

  lemma ReturnNeedsReuse(f: Fabric, disk: Option<Snapshot>, checkpointing: bool, es: seq<Event>, auth: Authorization)
    requires IndexExact(f.ledger) && Accepts(f, auth) && ComesBack(Start(f, disk, checkpointing), es, auth)
    ensures !SafeSlot(f.ledger, auth.slot)
  {
    var m := Start(f, disk, checkpointing);
    assert m.fab == f;
    hide Run, Start, IndexExact, Accepts, CurrentOf, SafeSlot;
    NothingMore(m);
    NothingMore(Run(m, es));
    RevocationIsPermanent(f, disk, checkpointing, [], es, [], auth);
  }

  // ----- the authority generation goes back ------------------------------------------

  /** Attempt 0 begins on one slot; two others begin and commit on two other slots. */
  function Overtaking(o: Offer, p: Offer, q: Offer): seq<Event> {
    Equip(o.target, o.boot) + [Begin(0, PlanFor(o))] + Script(1, PlanFor(p), Yes(0)) + Script(2, PlanFor(q), Yes(0))
  }

  predicate SameTarget(o: Offer, p: Offer) {
    o.target == p.target && o.boot == p.boot && o.slot != p.slot
  }

  /** The boot that the promotion replaces is not the boot it promotes. */
  predicate OtherBoot(f: Fabric, o: Offer) {
    CurrentOf(f.ledger, o.slot).Some? ==> CurrentOf(f.ledger, o.slot).value.workerBoot != o.boot
  }

  lemma JoinStaysOpen(m: Machine, n: Machine, t: nat, o: Offer, p: Offer)
    requires Joins(m, n, t, o) && Admits(m.fab, p)
    ensures Admits(n.fab, p) && CurrentOf(n.fab.ledger, p.slot) == CurrentOf(m.fab.ledger, p.slot)
  {
    hide Admits, CurrentOf, Drawn, Poised;
    StillAdmits(m.fab, n.fab, p);
  }

  /** A whole attempt from beginning to commit. */
  lemma ScriptRuns(m: Machine, t: nat, o: Offer) returns (a: Attempt)
    requires t !in m.procs && Admits(m.fab, o)
    ensures var n := Run(m, Script(t, PlanFor(o), Yes(0)));
            var l := m.fab.ledger.(minted := m.fab.ledger.minted + 1);
            && n.fab.ledger == CommitLedger(FenceSource(l, a), a) && n.fab.world == m.fab.world
            && n.fab.barrier == m.fab.barrier
            && n.procs.Keys == m.procs.Keys + {t} && (forall u :: u in m.procs ==> n.procs[u] == m.procs[u])
            && Drawn(a, CurrentOf(l, o.slot), o, m.fab.ledger.minted)
            && a.next.authorityGeneration == m.fab.ledger.lastAuthority + 1
  {
    hide Run, IntentScript, Next, BeginStep, PlanFor, CurrentOf, CommitLedger, FenceSource, Install, RouteFor, Poised,
      Drawn, Admits, Joins;
    var b := BeginStep(m, t, PlanFor(o));
    NextIsBegin(m, t, PlanFor(o));
    BeginJoins(m, t, o);
    Joined(m, b, t, o);
    RunCons(m, Begin(t, PlanFor(o)), IntentScript(t, Yes(0)));
    YesCommits(b, t, 0);
    SameCurrent(m.fab.ledger, b.fab.ledger, o.slot);
    a := b.procs[t].attempt;
  }

  /** The same, seen from the other slots. */
  lemma ScriptCommits(m: Machine, t: nat, o: Offer)
    requires t !in m.procs && Admits(m.fab, o) && IndexExact(m.fab.ledger)
    ensures var n := Run(m, Script(t, PlanFor(o), Yes(0)));
            && n.fab.ledger.lastAuthority == m.fab.ledger.lastAuthority + 1 && IndexExact(n.fab.ledger)
            && n.fab.world == m.fab.world && n.fab.barrier == m.fab.barrier
            && n.procs.Keys == m.procs.Keys + {t} && (forall u :: u in m.procs ==> n.procs[u] == m.procs[u])
            && (forall k :: k != o.slot ==> CurrentOf(n.fab.ledger, k) == CurrentOf(m.fab.ledger, k))
            && (OtherBoot(m.fab, o) ==> o.boot !in n.fab.ledger.fenced)
  {
    var a := ScriptRuns(m, t, o);
    hide Run, Script, PlanFor, CurrentOf, IndexExact, CommitLedger, FenceSource, HasSlot, FindService;
    var l := m.fab.ledger.(minted := m.fab.ledger.minted + 1);
    SameSlotsIndex(m.fab.ledger, l);
    forall k | k != o.slot ensures CurrentOf(CommitLedger(FenceSource(l, a), a), k) == CurrentOf(m.fab.ledger, k) {
      SameCurrent(m.fab.ledger, l, k);
      CommittedCurrent(l, a, k);
    }
    SameCurrent(m.fab.ledger, l, o.slot);
    CommittedCurrent(l, a, o.slot);
  }

  lemma SameSlotsIndex(l: Ledger, n: Ledger)
    requires IndexExact(l) && l.slots == n.slots && l.index == n.index
    ensures IndexExact(n)
  {
  }

  /** After another slot's attempt the promotion is still admitted. */
  lemma AdmitsAfter(f: Fabric, g: Fabric, p: Offer)
    requires Admits(f, p) && g.world == f.world && g.barrier == f.barrier && g.ledger.lastAuthority < U64_LIMIT - 1
    requires p.boot !in g.ledger.fenced && CurrentOf(g.ledger, p.slot) == CurrentOf(f.ledger, p.slot)
    ensures Admits(g, p)
  {
    hide FindService, CurrentOf, Equipped;
  }

  /** From any state in which three slots are open to one target, a run of overlapping attempts raises
      the authority generation by two and then sets it back by one. */
  lemma AuthorityGoesBack(m: Machine, o: Offer, p: Offer, q: Offer)
    requires m.procs == map[] && Blank(m.fab.world) && IndexExact(m.fab.ledger)
             && m.fab.ledger.lastAuthority < U64_LIMIT - 3
    requires Open(m.fab, o) && Open(m.fab, p) && Open(m.fab, q) && OtherBoot(m.fab, p) && OtherBoot(m.fab, q)
    requires SameTarget(o, p) && SameTarget(o, q) && SameTarget(p, q)
    ensures var n := Run(m, Overtaking(o, p, q));
            && n.fab.ledger.lastAuthority == m.fab.ledger.lastAuthority + 2
            && Run(n, IntentScript(0, Yes(0))).fab.ledger.lastAuthority == m.fab.ledger.lastAuthority + 1
  {
    hide Run, Equip, IntentScript, Script, PlanFor, CurrentOf, IndexExact, FindService, Next, Equipped;
    var e, b, s, t := Equip(o.target, o.boot), [Begin(0, PlanFor(o))], Script(1, PlanFor(p), Yes(0)),
      Script(2, PlanFor(q), Yes(0));
    EquipAdmits(m, o);
    var x := Run(m, e);
    var y := BeginStep(x, 0, PlanFor(o));
    RunOne(x, Begin(0, PlanFor(o)));
    NextIsBegin(x, 0, PlanFor(o));
    BeginJoins(x, 0, o);
    RunConcat(m, e, b);
    RunConcat(m, e + b, s);
    RunConcat(m, e + b + s, t);
    hide BeginStep, Overtaking;
    assert Overtaking(o, p, q) == e + b + s + t by { OvertakingParts(o, p, q); }
    SameSlotsIndex(m.fab.ledger, y.fab.ledger);
    TwoOvertake(x, y, o, p, q);
  }

  lemma OvertakingParts(o: Offer, p: Offer, q: Offer)
    ensures Overtaking(o, p, q) ==
            Equip(o.target, o.boot) + [Begin(0, PlanFor(o))] + Script(1, PlanFor(p), Yes(0)) +
            Script(2, PlanFor(q), Yes(0))
  {
  }

  lemma RunOne(m: Machine, e: Event)
    ensures Run(m, [e]) == Next(m, e)
  {
    hide Next;
    assert [e][1..] == [];
    assert Run(Next(m, e), []) == Next(m, e);
  }

  lemma TwoOvertake(x: Machine, y: Machine, o: Offer, p: Offer, q: Offer)
    requires x.procs == map[] && Joins(x, y, 0, o) && IndexExact(y.fab.ledger)
             && x.fab.ledger.lastAuthority < U64_LIMIT - 3
    requires Admits(x.fab, o) && Admits(x.fab, p) && Admits(x.fab, q) && OtherBoot(x.fab, p) && OtherBoot(x.fab, q)
    requires SameTarget(o, p) && SameTarget(o, q) && SameTarget(p, q)
    ensures var n := Run(Run(y, Script(1, PlanFor(p), Yes(0))), Script(2, PlanFor(q), Yes(0)));
            && n.fab.ledger.lastAuthority == x.fab.ledger.lastAuthority + 2
            && Run(n, IntentScript(0, Yes(0))).fab.ledger.lastAuthority == x.fab.ledger.lastAuthority + 1
  {
    hide Run, IntentScript, Script, PlanFor, CurrentOf, IndexExact, Admits;
    JoinStaysOpen(x, y, 0, o, p);
    JoinStaysOpen(x, y, 0, o, q);
    ScriptCommits(y, 1, p);
    var z := Run(y, Script(1, PlanFor(p), Yes(0)));
    AdmitsAfter(y.fab, z.fab, q);
    ScriptCommits(z, 2, q);
    var n := Run(z, Script(2, PlanFor(q), Yes(0)));
    StillOwnSource(y, n, 0);
    YesCommits(n, 0, 0);
    CommittedCurrent(n.fab.ledger, n.procs[0].attempt, o.slot);
  }

  lemma StillOwnSource(y: Machine, n: Machine, t: nat)
    requires Poised(y, t) && t in n.procs && n.procs[t] == y.procs[t] && n.fab.barrier == y.fab.barrier
    requires CurrentOf(n.fab.ledger, y.procs[t].attempt.slot) == CurrentOf(y.fab.ledger, y.procs[t].attempt.slot)
    ensures Poised(n, t)
  {
    hide CurrentOf;
  }

  // ----- from a fresh coordinator ----------------------------------------------------

  function Plain(service: u64): ServiceDefinition {
    ServiceDefinition(service, 1, 1, [], 0, 1, 8, Compatibility([], [], None, [], []),
                      DomainRequirement(false, 0, 0, []), [],
                      RecoveryObjective(0, 0, StatelessRestart, 0, None, false), ReturnAfterValidation,
                      AntiFlapping(1, 0, 0, false),
                      [], DERIVED, 1)
  }

  function FirstOn(slot: u64): Assignment {
    Assignment(slot, 1, SlotKey(1, slot), 7, 1, 1, 1, 1, 1, 1, 1, 1, 1, 1, 1, 70, [], [], Active, false, DERIVED)
  }

  const CREATE := [Do(CreateService(Plain(1)))]
  const ASSIGN := [Do(SetInitial(FirstOn(1), 0)), Do(SetInitial(FirstOn(2), 0)), Do(SetInitial(FirstOn(3), 0))]

  /** One plain service is known, no target is, and nothing has been fenced. */
  ghost predicate Calm(m: Machine) {
    && m.procs == map[] && Blank(m.fab.world) && m.fab.world.services == [Plain(1)] && IndexExact(m.fab.ledger)
    && m.fab.ledger.lastAuthority == 1 && m.fab.ledger.fenced == [] && m.fab.barrier.VerificationComplete?
  }

  lemma CreateCalm(epoch: u64, checkpointing: bool)
    ensures var m := Run(Start(WithEpoch(FRESH, epoch), None, checkpointing), CREATE);
            Calm(m) && m.fab.ledger.index == map[]
  {
    RunOne(Start(WithEpoch(FRESH, epoch), None, checkpointing), Do(CreateService(Plain(1))));
    hide Run;
  }

  lemma AssignCalm(m: Machine, slot: u64)
    requires Calm(m) && slot != 0 && CurrentOf(m.fab.ledger, SlotKey(1, slot)).None?
    ensures var n := Next(m, Do(SetInitial(FirstOn(slot), 0)));
            && Calm(n)
            && forall k ::
                 CurrentOf(n.fab.ledger, k) ==
                 if k == SlotKey(1, slot) then Some(FirstOn(slot)) else CurrentOf(m.fab.ledger, k)
  {
    hide CurrentOf, IndexExact, PerformRoutes;
    var l := m.fab.ledger;
    InitialCurrent(l, FirstOn(slot), SlotKey(1, slot));
    forall k ensures CurrentOf(SetInitialLedger(l, FirstOn(slot)), k) ==
      if k == SlotKey(1, slot) then Some(FirstOn(slot)) else CurrentOf(l, k) {
      InitialCurrent(l, FirstOn(slot), k);
    }
  }

  function OfferOn(slot: u64): Offer {
    Offer(SlotKey(1, slot), 9, 90, 1)
  }

  lemma CalmIsOpen(m: Machine, slot: u64)
    requires Calm(m)
    requires var cur := CurrentOf(m.fab.ledger, SlotKey(1, slot)); cur.Some? ==> cur == Some(FirstOn(slot))
    ensures Open(m.fab, OfferOn(slot)) && OtherBoot(m.fab, OfferOn(slot))
  {
    hide CurrentOf, IndexExact;
  }

  lemma AssignedCalm(m: Machine)
    requires Calm(m) && m.fab.ledger.index == map[]
    ensures var n := Run(m, ASSIGN);
            && Calm(n) && CurrentOf(n.fab.ledger, SlotKey(1, 1)) == Some(FirstOn(1))
            && CurrentOf(n.fab.ledger, SlotKey(1, 2)) == Some(FirstOn(2))
            && CurrentOf(n.fab.ledger, SlotKey(1, 3)) == Some(FirstOn(3))
  {
    assert forall k :: CurrentOf(m.fab.ledger, k).None?;
    hide CurrentOf, Next, Calm, FirstOn, Run;
    var x := Next(m, Do(SetInitial(FirstOn(1), 0)));
    var y := Next(x, Do(SetInitial(FirstOn(2), 0)));
    AssignCalm(m, 1);
    AssignCalm(x, 2);
    AssignCalm(y, 3);
    RunCons(m, Do(SetInitial(FirstOn(1), 0)), [Do(SetInitial(FirstOn(2), 0)), Do(SetInitial(FirstOn(3), 0))]);
    RunCons(x, Do(SetInitial(FirstOn(2), 0)), [Do(SetInitial(FirstOn(3), 0))]);
    RunOne(y, Do(SetInitial(FirstOn(3), 0)));
    assert [Do(SetInitial(FirstOn(1), 0))] + [Do(SetInitial(FirstOn(2), 0)), Do(SetInitial(FirstOn(3), 0))] == ASSIGN;
    assert [Do(SetInitial(FirstOn(2), 0))] + [Do(SetInitial(FirstOn(3), 0))]
           == [Do(SetInitial(FirstOn(2), 0)), Do(SetInitial(FirstOn(3), 0))];
  }

  /** A run of a fresh coordinator in which the authority generation goes from three back to two: an
      attempt begins on the first slot, two more begin and commit on the second and third, and then
      the first commits. */
  lemma AuthorityGoesBackFromFresh(epoch: u64, checkpointing: bool)
    ensures var m := Run(Run(Start(WithEpoch(FRESH, epoch), None, checkpointing), CREATE), ASSIGN);
            var n := Run(m, Overtaking(OfferOn(1), OfferOn(2), OfferOn(3)));
            && n.fab.ledger.lastAuthority == 3 && Run(n, IntentScript(0, Yes(0))).fab.ledger.lastAuthority == 2
  {
    CreateCalm(epoch, checkpointing);
    var c := Run(Start(WithEpoch(FRESH, epoch), None, checkpointing), CREATE);
    AssignedCalm(c);
    hide Run, Start, CurrentOf, Open, OtherBoot, Overtaking, IntentScript, FirstOn;
    var m := Run(c, ASSIGN);
    CalmIsOpen(m, 1);
    CalmIsOpen(m, 2);
    CalmIsOpen(m, 3);
    AuthorityGoesBack(m, OfferOn(1), OfferOn(2), OfferOn(3));
  }

  // ----- a record that cannot be read ------------------------------------------------

  /** An attempt that commits on a slot which cannot be found appends an active entry for it. */
  lemma BlindScript(m: Machine, t: nat, o: Offer)
    requires t !in m.procs && Admits(m.fab, o) && o.slot !in m.fab.ledger.index
             && m.fab.ledger.lastAuthority < U64_LIMIT - 2
    ensures var n := Run(m, Script(t, PlanFor(o), Yes(0)));
            && Admits(n.fab, o) && n.fab.ledger.index == m.fab.ledger.index && n.procs.Keys == m.procs.Keys + {t}
            && n.fab.ledger.lastAuthority == m.fab.ledger.lastAuthority + 1
            && |n.fab.ledger.slots| == |m.fab.ledger.slots| + 1 && m.fab.ledger.slots <= n.fab.ledger.slots
            && var st := n.fab.ledger.slots[|m.fab.ledger.slots|];
               ActiveEntry(st, o.slot) && st.current.value.slot == o.slot
  {
    var a := ScriptRuns(m, t, o);
    hide Run, Script, PlanFor, FindService, Equipped, CommitLedger, FenceSource, CurrentOf;
    var l := m.fab.ledger.(minted := m.fab.ledger.minted + 1);
    NotIndexed(l, o.slot);
    BlindLedger(l, a);
  }

  lemma NotIndexed(l: Ledger, k: SlotKey)
    requires k !in l.index
    ensures CurrentOf(l, k).None?
  {
  }

  lemma BlindLedger(l: Ledger, a: Attempt)
    requires a.slot !in l.index && a.source.None?
    ensures var n := CommitLedger(FenceSource(l, a), a);
            && n == l.(slots := n.slots, lastAuthority := a.next.authorityGeneration)
            && n.slots == l.slots + [SlotState(a.slot, Some(Activated(a)), [])] && CurrentOf(n, a.slot).None?
            && CurrentOf(l, a.slot).None?
  {
  }

  lemma TwoActive(xs: seq<Assignment>, ys: seq<Assignment>, zs: seq<Assignment>)
    requires ys != [] && zs != [] && ys[0].state.Active? && zs[0].state.Active? && ys[0].slot == zs[0].slot
    ensures !OneActivePerSlot(xs + ys + zs)
  {
    var all := xs + ys + zs;
    assert all[|xs|] == ys[0] && all[|xs| + |ys|] == zs[0];
  }

  /** From any state in which the service is known and the slot is not: two attempts, one after the
      other, complete on the slot, and what the coordinator then saves cannot be loaded. */
  lemma TwoBlindCommitsUnreadable(m: Machine, o: Offer)
    requires m.procs == map[] && Blank(m.fab.world) && Open(m.fab, o) && o.slot !in m.fab.ledger.index
    requires m.fab.ledger.lastAuthority < U64_LIMIT - 3
    ensures !SemanticallyValid(SnapshotOf(Run(Run(Run(m, Equip(o.target, o.boot)), Script(0, PlanFor(o), Yes(0))),
                                              Script(1, PlanFor(o), Yes(0))).fab))
  {
    hide Run, Equip, Script, PlanFor, CurrentOf, Open, Admits, AssignmentsOf, AllRoutes, OneActivePerSlot;
    EquipAdmits(m, o);
    var x := Run(m, Equip(o.target, o.boot));
    BlindScript(x, 0, o);
    var y := Run(x, Script(0, PlanFor(o), Yes(0)));
    BlindScript(y, 1, o);
    var z := Run(y, Script(1, PlanFor(o), Yes(0)));
    var l, n := x.fab.ledger.slots, |x.fab.ledger.slots|;
    var a, b := y.fab.ledger.slots[n], z.fab.ledger.slots[n + 1];
    assert z.fab.ledger.slots == l + [a] + [b];
    AssignmentsOfSnoc(l, a);
    AssignmentsOfSnoc(l + [a], b);
    TwoActive(AssignmentsOf(l), SlotAssignments(a), SlotAssignments(b));
  }

  /** A run of a fresh coordinator that ends with a record which cannot be loaded. */
  lemma UnreadableFromFresh(epoch: u64, checkpointing: bool)
    ensures var m := Run(Start(WithEpoch(FRESH, epoch), None, checkpointing), CREATE);
            var o := OfferOn(5);
            !SemanticallyValid(SnapshotOf(Run(Run(Run(m, Equip(o.target, o.boot)), Script(0, PlanFor(o), Yes(0))),
                                              Script(1, PlanFor(o), Yes(0))).fab))
  {
    CreateCalm(epoch, checkpointing);
    hide Run, Start, Equip, Script, PlanFor, Open, SemanticallyValid, SnapshotOf;
    var m := Run(Start(WithEpoch(FRESH, epoch), None, checkpointing), CREATE);
    CalmIsOpen(m, 5);
    TwoBlindCommitsUnreadable(m, OfferOn(5));
  }
}
