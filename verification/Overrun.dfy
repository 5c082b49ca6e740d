/** A run in which more failbacks fail than the budget allows: a slot is moved away from its preferred
    target, the target is ready again, and the first checkpoint of every failback cannot be written. */
module Overrun {
  import opened Types
  import opened Domains
  import opened Selection
  import opened Routing
  import opened Fabric
  import opened Operations
  import opened Durable
  import opened Attempts
  import opened Failback
  import opened Witnesses
  import opened Limits

  const HOME := SlotKey(1, 1)

  function Begun(epoch: u64): Session {
    NewSession(WithEpoch(FRESH, epoch), Store(None, true), 0)
  }

  // ----- up to the failover ----------------------------------------------------------

  predicate Created(s: Session) {
    && s.store.checkpointing && s.clock == 0 && s.tally == map[] && s.fab.routes == []
    && s.fab.barrier.VerificationComplete?
    && s.fab.world.services == [Plain(1)] && Blank(s.fab.world) && s.fab.book == EMPTY_BOOK
    && s.fab.ledger == EMPTY_LEDGER.(epoch := s.fab.ledger.epoch)
  }

  /** The slot sits on target 7. */
  predicate Assigned(s: Session) {
    && s.store.checkpointing && s.clock == 0 && s.tally == map[HOME := Tally(0, 0)] && s.fab.routes == []
    && s.fab.barrier.VerificationComplete?
    && s.fab.world.services == [Plain(1)]
    && s.fab.ledger == Ledger([SlotState(HOME, Some(FirstOn(1)), [])], map[HOME := 0], [], s.fab.ledger.epoch, 1, 0)
    && s.fab.book.preferred == map[HOME := 7] && s.fab.book.attempts == map[HOME := 0]
  }

  lemma CreateStep(epoch: u64)
    ensures Created(Exec(Begun(epoch), Call(CreateService(Plain(1)))))
  {
  }

  lemma AssignStep(s: Session)
    requires Created(s)
    ensures var n := Exec(s, Call(SetInitial(FirstOn(1), 0))); Assigned(n) && Blank(n.fab.world)
  {
    var n := Exec(s, Call(SetInitial(FirstOn(1), 0)));
    assert InitialAllowed(s.fab.ledger, FirstOn(1));
    assert n.fab.ledger.slots == [SlotState(HOME, Some(FirstOn(1)), [])];
  }

  lemma EquipSteps(s: Session)
    requires Assigned(s) && Blank(s.fab.world)
    ensures var n := Exec(Exec(s, Call(RegisterTarget(9))), Call(PublishFacts(FactsFor(9, 90), 0)));
            Assigned(n) && Equipped(n.fab.world, 9, 90)
  {
    EquipWorld(s.fab.world, 9, 90);
    hide PerformWorld, Equipped, FactsAccepted;
  }

  // ----- moved away ------------------------------------------------------------------

  /** The slot has moved to target 9; the old boot is fenced. */
  predicate Moved(s: Session) {
    && s.store.checkpointing && s.clock == 0 && s.tally == map[HOME := Tally(0, 0)]
    && s.fab.world.services == [Plain(1)] && s.fab.ledger.fenced == [70] && s.fab.ledger.lastAuthority == 2
    && CurrentOf(s.fab.ledger, HOME).Some? && CurrentOf(s.fab.ledger, HOME).value.target == 9
    && (CurrentRoute(s.fab.routes, HOME).Some? ==> CurrentRoute(s.fab.routes, HOME).value.generation == 1)
    && s.fab.book.preferred == map[HOME := 7] && s.fab.book.attempts == map[HOME := 0]
  }

  lemma OneRoute(e: RouteEntry)
    ensures CurrentRoute(Install([], e), HOME).Some? ==>
            CurrentRoute(Install([], e), HOME).value.generation == e.generation
  {
  }

  lemma MoveStep(s: Session)
    requires Assigned(s) && Equipped(s.fab.world, 9, 90)
    ensures var n := Exec(s, RunFailover(PlanFor(OfferOn(1)), Yes(0))); Moved(n) && n.fab.world == s.fab.world
  {
    hide NextAssignment, PlanFor, Admits, Equipped, FindService, Validate, IntentPhase, CommitLedger, FenceSource,
      RouteFor, Install, CurrentOf, CurrentRoute;
    var o := OfferOn(1);
    AssignedAdmits(s);
    AdmitsIsValid(s.fab, o);
    NextIsDrawn(s.fab, o);
    var a := Validate(s.fab, PlanFor(o)).attempt;
    var b := BeginSection(s.fab, PlanFor(o));
    SameCurrent(s.fab.ledger, b.ledger, HOME);
    OwnSource(b.ledger, a);
    YesCompletes(b, s.store, a, 0);
    MovedLedger(b.ledger, a);
    OneRoute(RouteFor(b, a));
    RouteGeneration(b, a);
    ExecuteSpends(s.fab, s.store, PlanFor(o), Yes(0));
    SpentStore(s.fab, s.store, Execute(s.fab, s.store, PlanFor(o), Yes(0)), PlanFor(o).routeGeneration);
  }

  lemma AssignedAdmits(s: Session)
    requires Assigned(s) && Equipped(s.fab.world, 9, 90)
    ensures Admits(s.fab, OfferOn(1)) && CurrentOf(s.fab.ledger, HOME) == Some(FirstOn(1))
  {
    assert CurrentOf(s.fab.ledger, HOME) == Some(FirstOn(1));
    assert FindService(s.fab.world.services, 1) == Some(Plain(1));
  }

  lemma RouteGeneration(f: Fabric, a: Attempt)
    ensures RouteFor(f, a).generation == a.next.routeGeneration
  {
    hide Decimal;
  }

  lemma MovedLedger(l: Ledger, a: Attempt)
    requires l.slots == [SlotState(HOME, Some(FirstOn(1)), [])] && l.index == map[HOME := 0] && l.fenced == []
    requires a.slot == HOME && a.source == Some(FirstOn(1)) && a.next.target == 9 && a.next.authorityGeneration == 2
    ensures var n := CommitLedger(FenceSource(l, a), a);
            n.fenced == [70] && n.lastAuthority == 2 && CurrentOf(n, HOME).Some? && CurrentOf(n, HOME).value.target == 9
  {
  }

  // ----- ready to go back ------------------------------------------------------------

  /** Target 7 is back under a new boot. */
  predicate Revived(s: Session) {
    && Moved(s) && s.fab.world.targets == [RecordFor(9, 90), RecordFor(7, 71)]
    && s.fab.world.targetIndex == map[9 := 0, 7 := 1]
    && s.fab.world.byService == map[] && s.fab.world.confirmedFailed == {}
  }

  lemma ReviveWorld(w: World)
    requires Equipped(w, 9, 90)
    ensures var v := PerformWorld(PerformWorld(w, RegisterTarget(7)), PublishFacts(FactsFor(7, 71), 0));
            && v.targets == [RecordFor(9, 90), RecordFor(7, 71)] && v.targetIndex == map[9 := 0, 7 := 1]
            && v.byService == map[] && v.confirmedFailed == {} && v.services == w.services
  {
    var u := PerformWorld(w, RegisterTarget(7));
    assert u.targets == [RecordFor(9, 90), TargetRecord(7, None, false, NO_STATE, [])]
           && u.targetIndex == map[9 := 0, 7 := 1];
  }

  lemma ReviveSteps(s: Session)
    requires Moved(s) && Equipped(s.fab.world, 9, 90)
    ensures Revived(Exec(Exec(s, Call(RegisterTarget(7))), Call(PublishFacts(FactsFor(7, 71), 0))))
  {
    ReviveWorld(s.fab.world);
    hide PerformWorld, FactsAccepted, Equipped, CurrentOf, CurrentRoute;
  }

  lemma TwoCandidates(w: World)
    requires w.services == [Plain(1)] && w.byService == map[] && w.targets == [RecordFor(9, 90), RecordFor(7, 71)]
    ensures Candidates(w, HOME) == [Choice(9, 90), Choice(7, 71)]
  {
    assert FindService(w.services, 1) == Some(Plain(1));
    hide FindService, CandidateOf;
    var ts := w.targets;
    assert ts[1..] == [RecordFor(7, 71)] && ts[1..][1..] == [];
    assert EmitMatching(ts[1..], [], []) == Emit(ts[1]) + EmitMatching([], [], []);
    assert EmitMatching(ts, [], []) == Emit(ts[0]) + EmitMatching(ts[1..], [], []);
  }

  lemma HomeIsEligible(f: Fabric, preferred: Option<u64>)
    requires f.world.confirmedFailed == {} && f.ledger.fenced == [70]
    requires CurrentOf(f.ledger, HOME).Some? && CurrentOf(f.ledger, HOME).value.target == 9
    ensures Eligible(Choice(7, 71), Plain(1), f.world.domains, BuildContext(f, HOME, preferred))
  {
    hide SortUnique, DomainsOfAll, CurrentOf, Failed;
    ConfirmedFailureSeenIff(f, HOME, preferred, 7);
    assert 7 !in BuildContext(f, HOME, preferred).confirmedFailed;
  }

  lemma RevivedIsAuthorized(s: Session)
    requires Revived(s)
    ensures FindService(s.fab.world.services, 1) == Some(Plain(1)) && Evaluate(s.fab, HOME, 0).Authorize?
  {
    hide CurrentOf, CurrentRoute;
    assert FindService(s.fab.world.services, 1) == Some(Plain(1));
    assert TargetReady(s.fab.world, 7);
  }

  lemma RevivedIsPlanned(s: Session, rank: Rank)
    requires Revived(s)
    ensures var p := PlanFailover(s.fab, HOME, Some(7), rank);
            && p.Planned? && p.plan.slot == HOME && p.plan.source == CurrentOf(s.fab.ledger, HOME)
            && p.plan.selected.Some?
            && p.plan.selected.value.facts == FactsFor(7, 71)
  {
    RevivedIsAuthorized(s);
    TwoCandidates(s.fab.world);
    HomeIsEligible(s.fab, Some(7));
    ChoiceFacts(7, 71);
    ChoiceFacts(9, 90);
    hide Candidates, BuildContext, FindService, CurrentOf, CurrentRoute, Select, Eligible, Choice, Evaluate;
    var xs, ctx := Candidates(s.fab.world, HOME), BuildContext(s.fab, HOME, Some(7));
    PrefersHome(s.fab);
    PreferredWinsIffEligible(xs, Plain(1), s.fab.world.domains, ctx, rank);
    assert Choice(7, 71) in xs;
    SelectedIsJudged(xs, Plain(1), s.fab.world.domains, ctx, rank);
  }

  lemma PrefersHome(f: Fabric)
    ensures BuildContext(f, HOME, Some(7)).preferred == Some(7)
  {
    hide BoundTargets, Failed, SortUnique, DomainsOfAll, CurrentOf;
  }

  lemma SelectedIsJudged(xs: seq<Candidate>, svc: ServiceDefinition, dom: Registry, ctx: Context, rank: Rank)
    requires xs != [] && Select(xs, svc, dom, ctx, rank).selected.Some?
    ensures exists x :: x in xs && Select(xs, svc, dom, ctx, rank).selected.value.facts == x.facts
  {
    hide Select, HardFault;
    SelectionPartitions(xs, svc, dom, ctx, rank);
    var r := Select(xs, svc, dom, ctx, rank);
    assert r.selected.value in [r.selected.value] + r.alternatives;
  }

  lemma RevivedIsRaisable(s: Session, rank: Rank)
    requires Revived(s)
    ensures Raisable(s, HOME, rank, 0)
  {
    RevivedIsAuthorized(s);
    RevivedIsPlanned(s, rank);
    TwoCandidates(s.fab.world);
    HomeIsEligible(s.fab, None);
    ChoiceFacts(7, 71);
    ChoiceFacts(9, 90);
    FirstHome();
    hide Candidates, BuildContext, FindService, CurrentOf, CurrentRoute, Eligible, Choice, Evaluate, PlanFailover,
      NextAssignment, FirstMatch;
  }

  lemma FirstHome()
    ensures FirstMatch([Choice(9, 90), Choice(7, 71)], 7, 71) == Some(Choice(7, 71))
  {
    ChoiceFacts(7, 71);
    ChoiceFacts(9, 90);
    hide Choice;
    assert [Choice(9, 90), Choice(7, 71)][1..] == [Choice(7, 71)];
  }

  // ----- the run ---------------------------------------------------------------------

  const SETUP: seq<Command> := [
    Call(CreateService(Plain(1))), Call(SetInitial(FirstOn(1), 0)),
    Call(RegisterTarget(9)), Call(PublishFacts(FactsFor(9, 90), 0)),
    RunFailover(PlanFor(OfferOn(1)), Yes(0)),
    Call(RegisterTarget(7)), Call(PublishFacts(FactsFor(7, 71), 0))]

  lemma ExecFirst(s: Session, cs: seq<Command>)
    requires cs != []
    ensures ExecAll(s, cs) == ExecAll(Exec(s, cs[0]), cs[1..])
    ensures TimelyRun(s, cs) <==> Timely(s, cs[0]) && TimelyRun(Exec(s, cs[0]), cs[1..])
  {
  }

  lemma RegisterClock(s: Session, t: u64)
    ensures Exec(s, Call(RegisterTarget(t))).clock == s.clock
  {
    hide Perform;
  }

  lemma SetupRevives(epoch: u64)
    ensures Revived(ExecAll(Begun(epoch), SETUP)) && TimelyRun(Begun(epoch), SETUP)
  {
    hide Exec, ExecAll, TimelyRun, Revived, Equipped, Begun, Blank;
    var s0 := Begun(epoch);
    CreateStep(epoch);
    var s1 := Exec(s0, SETUP[0]);
    AssignStep(s1);
    var s2 := Exec(s1, SETUP[1]);
    EquipSteps(s2);
    var s3 := Exec(s2, SETUP[2]);
    var s4 := Exec(s3, SETUP[3]);
    MoveStep(s4);
    var s5 := Exec(s4, SETUP[4]);
    ReviveSteps(s5);
    var s6 := Exec(s5, SETUP[5]);
    var s7 := Exec(s6, SETUP[6]);
    RegisterClock(s2, 9);
    RegisterClock(s5, 7);
    SetupUnrolled(s0, s1, s2, s3, s4, s5, s6, s7);
  }

  lemma SetupUnrolled(s0: Session, s1: Session, s2: Session, s3: Session, s4: Session, s5: Session, s6: Session,
                      s7: Session)
    requires s1 == Exec(s0, SETUP[0]) && s2 == Exec(s1, SETUP[1]) && s3 == Exec(s2, SETUP[2])
             && s4 == Exec(s3, SETUP[3])
    requires s5 == Exec(s4, SETUP[4]) && s6 == Exec(s5, SETUP[5]) && s7 == Exec(s6, SETUP[6])
    requires s1.clock <= 0 && s3.clock <= 0 && s4.clock <= 0 && s6.clock <= 0
    ensures ExecAll(s0, SETUP) == s7 && TimelyRun(s0, SETUP)
  {
    hide Exec;
    assert SETUP[1..][1..] == SETUP[2..] && SETUP[2..][1..] == SETUP[3..] && SETUP[3..][1..] == SETUP[4..];
    assert SETUP[4..][1..] == SETUP[5..] && SETUP[5..][1..] == SETUP[6..] && SETUP[6..][1..] == [];
    ExecFirst(s0, SETUP);
    ExecFirst(s1, SETUP[1..]);
    ExecFirst(s2, SETUP[2..]);
    ExecFirst(s3, SETUP[3..]);
    ExecFirst(s4, SETUP[4..]);
    ExecFirst(s5, SETUP[5..]);
    ExecFirst(s6, SETUP[6..]);
    assert ExecAll(s7, []) == s7;
  }

  /** For every `n` there is a run of a fresh coordinator with a budget of one in which `n` failbacks
      of a slot fail in a row: each ends with an exception, the counter stays at zero, and the next one
      is authorized again. */
  lemma BudgetOverrun(epoch: u64, rank: Rank, n: nat)
    ensures var cs := Repeat(Unsaved(HOME, rank, 0), n);
            var s := ExecAll(Begun(epoch), SETUP);
            var e := ExecAll(s, cs);
            && TimelyRun(Begun(epoch), SETUP) && TimelyRun(s, cs)
            && FindService(s.fab.world.services, HOME.service).Some?
            && FindService(s.fab.world.services, HOME.service).value.antiFlapping.maxAutoAttempts == 1
            && TallyOf(e, HOME) == Tally(0, n) && AttemptsOf(e.fab.book, HOME) == 0
            && Evaluate(e.fab, HOME, 0).Authorize?
  {
    SetupRevives(epoch);
    var s := ExecAll(Begun(epoch), SETUP);
    RevivedIsAuthorized(s);
    RevivedIsRaisable(s, rank);
    hide ExecAll, TimelyRun, Evaluate, Unsaved, FindService, CurrentOf, CurrentRoute, Raisable, RecordFor;
    RaisedWithoutEnd(s, HOME, rank, 0, n);
  }
}
