/** Failback and anti-flapping: the decision, its execution, and what it guarantees over whole runs
    of one process in which attempts do not overlap. */
module Failback {
  import opened Types
  import opened Domains
  import opened Selection
  import opened Routing
  import opened Fabric
  import opened Operations
  import Evidence
  import opened Durable
  import opened Attempts

  const NS_PER_MS: int := 1_000_000

  datatype Refusal =
    | NoService | NoAssignment | NoPreferred | AlreadyHome | StaysOnCurrent | NotAuthorized
    | StaleTarget | InCooldown(remaining: int) | NeverReady | InHysteresis(remaining: int) | AttemptsExhausted

  datatype Decision = Authorize | Refuse(why: Refusal)

  /** Nanoseconds to milliseconds, towards zero. */
  function Millis(ns: int): int {
    if ns >= 0 then ns / NS_PER_MS else -(-ns / NS_PER_MS)
  }

  predicate Within(since: int, now: int, window: u32) {
    0 <= Millis(now - since) < window
  }

  predicate TargetReady(w: World, t: u64) {
    var rec := TargetRecordOf(w, t);
    rec.Some? && rec.value.facts.Some? && rec.value.facts.value.ready && rec.value.facts.value.evidenceFresh
  }

  function Evaluate(f: Fabric, slot: SlotKey, now: int): Decision {
    var svc := FindService(f.world.services, slot.service);
    var cur := CurrentOf(f.ledger, slot);
    if svc.None? then Refuse(NoService)
    else if cur.None? then Refuse(NoAssignment)
    else if slot !in f.book.preferred then Refuse(NoPreferred)
    else
      var pref := f.book.preferred[slot];
      var limits := svc.value.antiFlapping;
      if cur.value.target == pref then Refuse(AlreadyHome)
      else if svc.value.failback.StayOnCurrent? then Refuse(StaysOnCurrent)
      else if svc.value.failback.Manual? && slot !in f.book.manual then Refuse(NotAuthorized)
      else if !TargetReady(f.world, pref) then Refuse(StaleTarget)
      else if slot in f.book.lastTransition && Within(f.book.lastTransition[slot], now, limits.cooldownMs)
      then Refuse(InCooldown(limits.cooldownMs - Millis(now - f.book.lastTransition[slot])))
      else if limits.hysteresisMs > 0 && pref !in f.book.readySince then Refuse(NeverReady)
      else if limits.hysteresisMs > 0 && Within(f.book.readySince[pref], now, limits.hysteresisMs)
      then Refuse(InHysteresis(limits.hysteresisMs - Millis(now - f.book.readySince[pref])))
      else if slot in f.book.attempts && f.book.attempts[slot] >= limits.maxAutoAttempts then Refuse(AttemptsExhausted)
      else Authorize
  }

  function AttemptsOf(b: Book, slot: SlotKey): nat {
    if slot in b.attempts then b.attempts[slot] else 0
  }

  /** The closing section of a failback. */
  function Settle(o: Outcome, slot: SlotKey, after: int): Outcome {
    match o
    case Raised(_, _) => o
    case Done(f, d, result) =>
      var b := f.book;
      Done(f.(book :=
              if result.Completed?
                then b.(lastTransition := b.lastTransition[slot := after], attempts := b.attempts[slot := 0])
                      else b.(attempts := b.attempts[slot := AttemptsOf(b, slot) + 1])), d, result)
  }

  function ExecuteFailback(f: Fabric, d: Store, slot: SlotKey, rank: Rank, now: int, r: Replies, after: int): Outcome {
    if Evaluate(f, slot, now).Refuse? then Done(f, d, FailedAttempt)
    else
      match PlanFailover(f, slot, Some(f.book.preferred[slot]), rank)
      case NoPlan => Done(f, d, FailedAttempt)
      case Exhausted => Raised(f, d)
      case Planned(plan) => Settle(Execute(f, d, plan, r), slot, after)
  }

  // ----- where a failback lands ------------------------------------------------------

  /** One of the preferred target's candidates passes every hard rule. */
  ghost predicate HomeEligible(f: Fabric, slot: SlotKey, pref: u64) {
    var svc := FindService(f.world.services, slot.service);
    svc.Some? &&
    (exists c :: c in Candidates(f.world, slot) && c.facts.target == pref &&
                 Eligible(c, svc.value, f.world.domains, BuildContext(f, slot, Some(pref))))
  }

  /** The fields of a plan that decide where it leads. */
  lemma PlanSelects(f: Fabric, slot: SlotKey, pref: u64, rank: Rank)
    requires PlanFailover(f, slot, Some(pref), rank).Planned?
    ensures var plan := PlanFailover(f, slot, Some(pref), rank).plan;
            && plan.slot == slot && plan.selected.Some?
            && (plan.selected.value.facts.target == pref <==> HomeEligible(f, slot, pref))
  {
    hide Candidates, CurrentOf, CurrentRoute, Select, Eligible;
    var svc := FindService(f.world.services, slot.service).value;
    PreferredWinsIffEligible(Candidates(f.world, slot), svc, f.world.domains, BuildContext(f, slot, Some(pref)), rank);
  }

  lemma ValidatedTarget(f: Fabric, plan: Plan)
    requires Validate(f, plan).Valid?
    ensures Validate(f, plan).attempt.next.target == plan.selected.value.facts.target
    ensures Validate(f, plan).attempt.slot == plan.slot
  {
    hide Candidates, BuildContext, Eligible, CurrentOf, UsesCuda, FindService;
  }

  /** A completed failback commits the preferred target if and only if that target was eligible when
      the plan was made; otherwise it has moved the slot to some other target. */
  lemma LandsHomeIffEligible(f: Fabric, d: Store, slot: SlotKey, rank: Rank, now: int, r: Replies, after: int)
    requires Evaluate(f, slot, now).Authorize? && Completes(ExecuteFailback(f, d, slot, rank, now, r, after))
    ensures var pref := f.book.preferred[slot];
            && PlanFailover(f, slot, Some(pref), rank).Planned?
            && Validate(f, PlanFailover(f, slot, Some(pref), rank).plan).Valid?
            && var a := Validate(f, PlanFailover(f, slot, Some(pref), rank).plan).attempt;
            && ExecuteFailback(f, d, slot, rank, now, r, after).fab.ledger ==
               CommitLedger(FenceSource(f.ledger.(minted := f.ledger.minted + 1), a), a)
            && a.slot == slot && (a.next.target == pref <==> HomeEligible(f, slot, pref))
  {
    hide PlanFailover, Execute, Validate, CommitLedger, FenceSource, HomeEligible;
    var pref := f.book.preferred[slot];
    var plan := PlanFailover(f, slot, Some(pref), rank).plan;
    CompletedEffects(f, d, plan, r);
    PlanSelects(f, slot, pref, rank);
    ValidatedTarget(f, plan);
  }

  // ----- runs ------------------------------------------------------------------------

  /** An accepted publication of facts. */
  datatype Heard = Heard(target: u64, time: int, ready: bool)

  /** The failbacks of a slot that failed since the last success or initial assignment: those that
      came back without completing, and those that ended with an exception. */
  datatype Tally = Tally(returned: nat, raised: nat)

  /** A process and its history: the clock, the accepted publications in order, when each slot was
      last given an assignment, which failbacks failed since, and the target of each slot's initial
      assignment. */
  datatype Session = Session(fab: Fabric, store: Store, clock: int, heard: seq<Heard>, moved: map<SlotKey, int>,
                             tally: map<SlotKey, Tally>, home: map<SlotKey, u64>)

  function TallyOf(s: Session, k: SlotKey): Tally {
    if k in s.tally then s.tally[k] else Tally(0, 0)
  }

  datatype Command =
    | Call(op: Op)
    | RunFailover(plan: Plan, replies: Replies)
    | RunFailback(slot: SlotKey, rank: Rank, at: int, replies: Replies, after: int)

  /** The clock never goes back. */
  predicate Timely(s: Session, c: Command) {
    match c
    case Call(SetInitial(_, now)) => s.clock <= now
    case Call(PublishFacts(_, now)) => s.clock <= now
    case Call(_) => true
    case RunFailover(_, r) => s.clock <= r.now
    case RunFailback(_, _, at, r, after) => s.clock <= at <= r.now <= after
  }

  function Tick(s: Session, c: Command): int {
    match c
    case Call(SetInitial(_, now)) => now
    case Call(PublishFacts(_, now)) => now
    case Call(_) => s.clock
    case RunFailover(_, r) => r.now
    case RunFailback(_, _, _, _, after) => after
  }

  function CallStep(s: Session, op: Op): Session {
    s.(fab := Perform(s.fab, op), clock := Tick(s, Call(op)),
       heard := if op.PublishFacts? && FactsAccepted(s.fab.world, op.facts)
                then s.heard + [Heard(op.facts.target, op.now, op.facts.ready)] else s.heard,
       moved := if op.SetInitial? && InitialAllowed(s.fab.ledger, op.assignment)
                then s.moved[op.assignment.slot := op.now] else s.moved,
       tally := if op.SetInitial? && InitialAllowed(s.fab.ledger, op.assignment)
                then s.tally[op.assignment.slot := Tally(0, 0)] else s.tally,
       home := if op.SetInitial? && InitialAllowed(s.fab.ledger, op.assignment)
               then s.home[op.assignment.slot := op.assignment.target] else s.home)
  }

  /** The failback is authorized and has a plan to execute. */
  predicate Undertaken(f: Fabric, slot: SlotKey, rank: Rank, at: int) {
    Evaluate(f, slot, at).Authorize? && PlanFailover(f, slot, Some(f.book.preferred[slot]), rank).Planned?
  }

  function Tallied(s: Session, slot: SlotKey, undertaken: bool, o: Outcome): map<SlotKey, Tally> {
    var t := TallyOf(s, slot);
    if Completes(o) then s.tally[slot := Tally(0, 0)]
    else if o.Raised? then s.tally[slot := t.(raised := t.raised + 1)]
    else if undertaken then s.tally[slot := t.(returned := t.returned + 1)]
    else s.tally
  }

  function OutcomeStep(s: Session, slot: SlotKey, o: Outcome, commit: int, end: int): Session {
    s.(fab := o.fab, store := o.store, clock := end, moved := if Completes(o) then s.moved[slot := commit] else s.moved)
  }

  function Exec(s: Session, c: Command): Session {
    match c
    case Call(op) => CallStep(s, op)
    case RunFailover(plan, r) => OutcomeStep(s, plan.slot, Execute(s.fab, s.store, plan, r), r.now, r.now)
    case RunFailback(slot, rank, at, r, after) =>
      var o := ExecuteFailback(s.fab, s.store, slot, rank, at, r, after);
      OutcomeStep(s, slot, o, r.now, after).(tally := Tallied(s, slot, Undertaken(s.fab, slot, rank, at), o))
  }

  function ExecAll(s: Session, cs: seq<Command>): Session
    decreases |cs|
  {
    if cs == [] then s else ExecAll(Exec(s, cs[0]), cs[1..])
  }

  predicate TimelyRun(s: Session, cs: seq<Command>)
    decreases |cs|
  {
    cs == [] || (Timely(s, cs[0]) && TimelyRun(Exec(s, cs[0]), cs[1..]))
  }

  // ----- what every command keeps ----------------------------------------------------

  function LastHeard(heard: seq<Heard>, t: u64): (r: Option<nat>)
    ensures r.Some? ==> r.value < |heard| && heard[r.value].target == t && forall j :: r.value < j < |heard| ==>
            heard[j].target != t
    ensures r.None? ==> forall j :: 0 <= j < |heard| ==> heard[j].target != t
  {
    if heard == [] then None
    else
      var n := |heard| - 1;
      if heard[n].target == t then Some(n) else LastHeard(heard[..n], t)
  }

  /** The last accepted publication that said ready. */
  function LastReady(heard: seq<Heard>, t: u64): (r: Option<nat>)
    ensures r.Some? ==> r.value < |heard| && heard[r.value].target == t && heard[r.value].ready
                        && forall j :: r.value < j < |heard| && heard[j].target == t ==> !heard[j].ready
    ensures r.None? ==> forall j :: 0 <= j < |heard| && heard[j].target == t ==> !heard[j].ready
  {
    if heard == [] then None
    else
      var n := |heard| - 1;
      if heard[n].target == t && heard[n].ready then Some(n) else LastReady(heard[..n], t)
  }

  /** The time kept for a target is that of its last accepted ready publication. */
  ghost predicate ReadyTimed(s: Session, t: u64) {
    var i := LastReady(s.heard, t);
    && (t in s.fab.book.readySince <==> i.Some?)
    && (i.Some? ==> s.fab.book.readySince[t] == s.heard[i.value].time)
  }

  /** The last accepted publication of the target said ready. */
  predicate ReadyNow(heard: seq<Heard>, t: u64) {
    LastHeard(heard, t).Some? && heard[LastHeard(heard, t).value].ready
  }

  /** A target counts as ready exactly when its last accepted publication said so, and that is timed. */
  ghost predicate FactsHeard(s: Session, t: u64) {
    && (TargetReady(s.fab.world, t) <==> ReadyNow(s.heard, t))
    && (ReadyNow(s.heard, t) ==>
          t in s.fab.book.readySince && s.fab.book.readySince[t] == s.heard[LastHeard(s.heard, t).value].time)
  }

  ghost predicate TransitionKept(s: Session, k: SlotKey) {
    && (k in s.moved <==> k in s.fab.book.lastTransition)
    && (k in s.moved ==> s.moved[k] <= s.fab.book.lastTransition[k] <= s.clock)
  }

  ghost predicate BudgetKept(f: Fabric, k: SlotKey) {
    && (k in f.book.preferred ==> k in f.book.attempts)
    && (AttemptsOf(f.book, k) > 0 ==>
          var svc := FindService(f.world.services, k.service);
          svc.Some? && AttemptsOf(f.book, k) <= svc.value.antiFlapping.maxAutoAttempts)
  }

  /** The code's counter counts exactly the failbacks that came back without completing. */
  ghost predicate TallyKept(s: Session, k: SlotKey) {
    AttemptsOf(s.fab.book, k) == TallyOf(s, k).returned
  }

  /** Every indexed target has its own record. */
  ghost predicate TargetsOk(w: World) {
    && (forall t :: t in w.targetIndex ==> w.targetIndex[t] < |w.targets|)
    && (forall t, u :: t in w.targetIndex && u in w.targetIndex && t != u ==> w.targetIndex[t] != w.targetIndex[u])
  }

  ghost predicate HearingSound(s: Session) {
    && TargetsOk(s.fab.world)
    && (forall t :: FactsHeard(s, t) && ReadyTimed(s, t))
    && (forall i :: 0 <= i < |s.heard| ==> s.heard[i].time <= s.clock)
  }

  ghost predicate Sound(s: Session) {
    && HearingSound(s)
    && s.fab.book.preferred == s.home
    && (forall k :: TransitionKept(s, k))
    && (forall k :: BudgetKept(s.fab, k) && TallyKept(s, k))
  }

  /** An attempt changes neither the world nor, but for the time of its commit, the books. */
  predicate Framed(f: Fabric, o: Outcome, slot: SlotKey, now: int) {
    && o.fab.world == f.world
    && o.fab.book == (if Completes(o) then f.book.(lastTransition := f.book.lastTransition[slot := now]) else f.book)
  }

  lemma RouteFrame(f: Fabric, d: Store, a: Attempt, r: Replies)
    ensures Framed(f, RoutePhase(f, d, a, r), a.slot, r.now)
  {
    hide CommitLedger, Install, SnapshotOf, Supersedes, RouteFor;
  }

  lemma FenceFrame(f: Fabric, d: Store, a: Attempt, r: Replies)
    ensures Framed(f, FencePhase(f, d, a, r), a.slot, r.now)
  {
    hide RoutePhase, SnapshotOf, FenceSource;
    var g := FenceSection(f, a, r.fenceApplied, r.fenceUnproven).0;
    var h := MarkTxn(MarkTxn(g, OldAdmissionFenced, a, None), ActivationAcknowledged, a, None);
    RouteFrame(h, Record(h, Record(MarkTxn(g, OldAdmissionFenced, a, None), d)), a, r);
  }

  lemma ExecuteFrame(f: Fabric, d: Store, plan: Plan, r: Replies)
    ensures Framed(f, Execute(f, d, plan, r), plan.slot, r.now)
  {
    hide Validate, FencePhase, SnapshotOf;
    if Validate(f, plan).Valid? {
      ValidatedTarget(f, plan);
      var h := MarkTxn(BeginSection(f, plan), IntentOnly, Validate(f, plan).attempt, None);
      FenceFrame(h, Record(h, d), Validate(f, plan).attempt, r);
    }
  }

  lemma FailbackFrame(f: Fabric, d: Store, slot: SlotKey, rank: Rank, now: int, r: Replies, after: int)
    ensures var o := ExecuteFailback(f, d, slot, rank, now, r, after);
            && o.fab.world == f.world
            && o.fab.book.readySince == f.book.readySince && o.fab.book.preferred == f.book.preferred
            && (forall k :: k != slot ==> AttemptsOf(o.fab.book, k) == AttemptsOf(f.book, k))
            && f.book.attempts.Keys <= o.fab.book.attempts.Keys
            && (if Completes(o)
                then AttemptsOf(o.fab.book, slot) == 0
                  && o.fab.book.lastTransition == f.book.lastTransition[slot := after]
                else o.fab.book.lastTransition == f.book.lastTransition &&
                     AttemptsOf(o.fab.book, slot)
                       == AttemptsOf(f.book, slot) + (if o.Done? && Undertaken(f, slot, rank, now) then 1 else 0))
  {
    hide Evaluate, PlanFailover, Execute, Validate;
    if Evaluate(f, slot, now).Authorize? {
      AuthorizedHasHome(f, slot, now);
      if PlanFailover(f, slot, Some(f.book.preferred[slot]), rank).Planned? {
        var plan := PlanFailover(f, slot, Some(f.book.preferred[slot]), rank).plan;
        ExecuteFrame(f, d, plan, r);
        PlanSlot(f, slot, Some(f.book.preferred[slot]), rank);
        var b := Execute(f, d, plan, r).fab.book;
        assert b.lastTransition[slot := after] == f.book.lastTransition[slot := after] ||
               !Completes(Execute(f, d, plan, r));
      }
    }
  }

  lemma PlanSlot(f: Fabric, slot: SlotKey, preferred: Option<u64>, rank: Rank)
    requires PlanFailover(f, slot, preferred, rank).Planned?
    ensures PlanFailover(f, slot, preferred, rank).plan.slot == slot
  {
    hide Select, Candidates, BuildContext, CurrentOf, CurrentRoute, FindService;
  }

  lemma AuthorizedHasHome(f: Fabric, slot: SlotKey, now: int)
    requires Evaluate(f, slot, now).Authorize?
    ensures slot in f.book.preferred
    ensures BudgetKept(f, slot) ==>
              var svc := FindService(f.world.services, slot.service);
              svc.Some? && AttemptsOf(f.book, slot) < svc.value.antiFlapping.maxAutoAttempts
  {
    hide FindService, CurrentOf, TargetReady, Within;
  }

  // ----- hearing ---------------------------------------------------------------------

  lemma LastHeardAppend(heard: seq<Heard>, h: Heard, t: u64)
    ensures LastHeard(heard + [h], t) == if h.target == t then Some(|heard|) else LastHeard(heard, t)
  {
    assert (heard + [h])[..|heard|] == heard;
  }

  lemma LastReadyAppend(heard: seq<Heard>, h: Heard, t: u64)
    ensures LastReady(heard + [h], t) == if h.target == t && h.ready then Some(|heard|) else LastReady(heard, t)
  {
    assert (heard + [h])[..|heard|] == heard;
  }

  lemma PublishTimed(s: Session, x: Facts, now: int, t: u64)
    requires ReadyTimed(s, t)
    ensures ReadyTimed(CallStep(s, PublishFacts(x, now)), t)
  {
    hide PerformWorld, PerformRoutes, PerformLedger, FactsAccepted, LastReady;
    if FactsAccepted(s.fab.world, x) {
      LastReadyAppend(s.heard, Heard(x.target, now, x.ready), t);
    }
  }

  lemma PublishRecord(w: World, x: Facts, t: u64)
    requires TargetsOk(w) && FactsAccepted(w, x)
    ensures TargetsOk(PublishFactsWorld(w, x))
    ensures t != x.target ==> FactsOf(PublishFactsWorld(w, x), t) == FactsOf(w, t)
    ensures FactsOf(PublishFactsWorld(w, x), x.target) == Some(x.(evidenceFresh := true))
  {
  }

  lemma PublishHeard(s: Session, x: Facts, now: int)
    requires HearingSound(s) && s.clock <= now
    ensures HearingSound(CallStep(s, PublishFacts(x, now)))
  {
    hide TargetsOk, PublishFactsWorld, FactsAccepted, FactsOf, TargetReady, LastHeard, LastReady, PerformRoutes,
      ReadyTimed;
    var n := CallStep(s, PublishFacts(x, now));
    if FactsAccepted(s.fab.world, x) {
      assert n.fab.world == PublishFactsWorld(s.fab.world, x);
      PublishRecord(s.fab.world, x, x.target);
      forall t ensures FactsHeard(n, t) && ReadyTimed(n, t) {
        assert FactsHeard(s, t) && ReadyTimed(s, t);
        PublishRecord(s.fab.world, x, t);
        FactsReady(n.fab.world, t);
        FactsReady(s.fab.world, t);
        LastHeardAppend(s.heard, Heard(x.target, now, x.ready), t);
        PublishTimed(s, x, now, t);
      }
    } else {
      assert n.fab.world == s.fab.world;
      forall t ensures FactsHeard(n, t) && ReadyTimed(n, t) {
        assert FactsHeard(s, t) && ReadyTimed(s, t);
        PublishTimed(s, x, now, t);
      }
    }
  }

  function FactsOf(w: World, t: u64): Option<Facts> {
    if TargetRecordOf(w, t).Some? then TargetRecordOf(w, t).value.facts else None
  }

  lemma FactsReady(w: World, t: u64)
    ensures TargetReady(w, t) <==> FactsOf(w, t).Some? && FactsOf(w, t).value.ready && FactsOf(w, t).value.evidenceFresh
  {
    hide TargetRecordOf;
  }

  lemma SameFactsReady(w: World, v: World, t: u64)
    requires FactsOf(w, t) == FactsOf(v, t)
    ensures TargetReady(w, t) <==> TargetReady(v, t)
  {
    hide TargetRecordOf;
  }

  /** The other calls store no facts. */
  lemma OtherCallRecords(w: World, op: Op, t: u64)
    requires TargetsOk(w) && !op.PublishFacts?
    ensures TargetsOk(PerformWorld(w, op))
    ensures FactsOf(PerformWorld(w, op), t) == FactsOf(w, t)
  {
    hide FindService, Evidence.Publish, Evidence.Clear, Declare, SetMember;
  }

  lemma OtherCallHeard(s: Session, op: Op)
    requires HearingSound(s) && !op.PublishFacts? && Timely(s, Call(op))
    ensures HearingSound(CallStep(s, op))
  {
    hide TargetsOk, PerformWorld, TargetReady, FactsOf, LastHeard, LastReady, PerformRoutes, PerformLedger,
      InitialAllowed;
    var n := CallStep(s, op);
    forall t ensures FactsHeard(n, t) && ReadyTimed(n, t) {
      assert FactsHeard(s, t) && ReadyTimed(s, t);
      OtherCallRecords(s.fab.world, op, t);
      SameFactsReady(s.fab.world, n.fab.world, t);
    }
    OtherCallRecords(s.fab.world, op, 0);
  }

  lemma OutcomeHeard(s: Session, slot: SlotKey, o: Outcome, commit: int, end: int)
    requires HearingSound(s) && o.fab.world == s.fab.world && o.fab.book.readySince == s.fab.book.readySince
             && s.clock <= end
    ensures HearingSound(OutcomeStep(s, slot, o, commit, end))
  {
    hide TargetsOk, TargetRecordOf, LastHeard, LastReady;
    var n := OutcomeStep(s, slot, o, commit, end);
    forall t ensures FactsHeard(n, t) && ReadyTimed(n, t) {
      assert FactsHeard(s, t) && ReadyTimed(s, t);
    }
  }

  lemma SameHearing(s: Session, n: Session)
    requires HearingSound(s) && n == s.(tally := n.tally)
    ensures HearingSound(n)
  {
    hide TargetsOk, TargetRecordOf, LastHeard, LastReady;
    forall t ensures FactsHeard(n, t) && ReadyTimed(n, t) {
      assert FactsHeard(s, t) && ReadyTimed(s, t);
    }
  }

  // ----- transitions and budgets -----------------------------------------------------

  lemma CallTransitions(s: Session, op: Op, k: SlotKey)
    requires TransitionKept(s, k) && Timely(s, Call(op))
    ensures TransitionKept(CallStep(s, op), k)
  {
    hide PerformWorld, PerformRoutes, PerformLedger, InitialAllowed, FactsAccepted;
  }

  lemma MoreServicesFound(ds: seq<ServiceDefinition>, d: ServiceDefinition, id: u64)
    requires FindService(ds, id).Some?
    ensures FindService(ds + [d], id) == FindService(ds, id)
  {
    if ds[0].service != id {
      assert (ds + [d])[1..] == ds[1..] + [d];
      MoreServicesFound(ds[1..], d, id);
    }
  }

  lemma CallBudget(f: Fabric, op: Op, k: SlotKey)
    requires BudgetKept(f, k)
    ensures BudgetKept(Perform(f, op), k)
  {
    hide PerformRoutes, PerformLedger, InitialAllowed, FactsAccepted, FindService, TargetRecordOf, Evidence.Publish,
      Evidence.Clear, Declare, SetMember;
    if op.CreateService? && FindService(f.world.services, k.service).Some? {
      MoreServicesFound(f.world.services, op.def, k.service);
    }
  }

  lemma CallHome(s: Session, op: Op)
    requires s.fab.book.preferred == s.home
    ensures CallStep(s, op).fab.book.preferred == CallStep(s, op).home
  {
    hide PerformWorld, PerformRoutes, PerformLedger, InitialAllowed, FactsAccepted;
  }

  lemma CallTally(s: Session, op: Op, k: SlotKey)
    requires TallyKept(s, k)
    ensures TallyKept(CallStep(s, op), k)
  {
    hide PerformWorld, PerformRoutes, PerformLedger, InitialAllowed, FactsAccepted;
  }

  lemma FailoverKept(s: Session, plan: Plan, r: Replies, k: SlotKey)
    requires TransitionKept(s, k) && BudgetKept(s.fab, k) && TallyKept(s, k) && s.clock <= r.now
    ensures TransitionKept(Exec(s, RunFailover(plan, r)), k) && BudgetKept(Exec(s, RunFailover(plan, r)).fab, k)
    ensures TallyKept(Exec(s, RunFailover(plan, r)), k)
  {
    hide Execute, FindService;
    ExecuteFrame(s.fab, s.store, plan, r);
  }

  lemma FailbackMoves(s: Session, slot: SlotKey, rank: Rank, at: int, r: Replies, after: int, k: SlotKey)
    requires TransitionKept(s, k) && Timely(s, RunFailback(slot, rank, at, r, after))
    ensures TransitionKept(Exec(s, RunFailback(slot, rank, at, r, after)), k)
  {
    hide ExecuteFailback, FindService, Evaluate, PlanFailover;
    FailbackFrame(s.fab, s.store, slot, rank, at, r, after);
  }

  lemma FailbackCounts(s: Session, slot: SlotKey, rank: Rank, at: int, r: Replies, after: int, k: SlotKey)
    requires BudgetKept(s.fab, k) && TallyKept(s, k)
    ensures BudgetKept(Exec(s, RunFailback(slot, rank, at, r, after)).fab, k)
    ensures TallyKept(Exec(s, RunFailback(slot, rank, at, r, after)), k)
  {
    hide ExecuteFailback, FindService, Evaluate, PlanFailover;
    FailbackFrame(s.fab, s.store, slot, rank, at, r, after);
    if k == slot && Evaluate(s.fab, slot, at).Authorize? {
      AuthorizedHasHome(s.fab, slot, at);
    }
  }

  lemma ExecKeeps(s: Session, c: Command)
    requires Sound(s) && Timely(s, c)
    ensures Sound(Exec(s, c))
  {
    hide HearingSound, TransitionKept, BudgetKept, TallyKept, Perform, Execute, ExecuteFailback, Undertaken;
    var n := Exec(s, c);
    match c {
      case Call(op) =>
        CallHome(s, op);
        if op.PublishFacts? {
          PublishHeard(s, op.facts, op.now);
        } else {
          OtherCallHeard(s, op);
        }
        forall k ensures TransitionKept(n, k) && BudgetKept(n.fab, k) && TallyKept(n, k) {
          CallTransitions(s, op, k);
          CallBudget(s.fab, op, k);
          CallTally(s, op, k);
        }
      case RunFailover(plan, r) =>
        ExecuteFrame(s.fab, s.store, plan, r);
        OutcomeHeard(s, plan.slot, Execute(s.fab, s.store, plan, r), r.now, r.now);
        forall k ensures TransitionKept(n, k) && BudgetKept(n.fab, k) && TallyKept(n, k) {
          FailoverKept(s, plan, r, k);
        }
      case RunFailback(slot, rank, at, r, after) =>
        FailbackFrame(s.fab, s.store, slot, rank, at, r, after);
        var o := ExecuteFailback(s.fab, s.store, slot, rank, at, r, after);
        OutcomeHeard(s, slot, o, r.now, after);
        SameHearing(OutcomeStep(s, slot, o, r.now, after), n);
        forall k ensures TransitionKept(n, k) && BudgetKept(n.fab, k) && TallyKept(n, k) {
          FailbackMoves(s, slot, rank, at, r, after, k);
          FailbackCounts(s, slot, rank, at, r, after, k);
        }
    }
  }

  lemma {:induction false} SoundOverRuns(s: Session, cs: seq<Command>)
    requires Sound(s) && TimelyRun(s, cs)
    ensures Sound(ExecAll(s, cs))
    decreases |cs|
  {
    hide Sound, Exec, Timely;
    if cs != [] {
      ExecKeeps(s, cs[0]);
      SoundOverRuns(Exec(s, cs[0]), cs[1..]);
    }
  }

  /** A process that has just been started; times are later than `now`. */
  function NewSession(f: Fabric, d: Store, now: int): Session {
    Session(f, d, now, [], map[], map[], map[])
  }

  /** A coordinator that was just made or just loaded knows no target and has empty books. */
  predicate Newborn(f: Fabric) {
    f.book == EMPTY_BOOK && f.world.targets == [] && f.world.targetIndex == map[]
  }

  lemma NewSessionSound(f: Fabric, d: Store, now: int)
    requires Newborn(f)
    ensures Sound(NewSession(f, d, now))
  {
    hide FindService;
  }

  // ----- what a failback guarantees --------------------------------------------------

  /** The last publication that was accepted by time `at` said ready. */
  ghost predicate ReadyAt(heard: seq<Heard>, t: u64, at: int) {
    exists i :: 0 <= i < |heard| && SaidReady(heard, t, at, i)
  }

  ghost predicate SaidReady(heard: seq<Heard>, t: u64, at: int, i: nat)
    requires i < |heard|
  {
    && heard[i].target == t && heard[i].time <= at && heard[i].ready
    && forall j :: i < j < |heard| && heard[j].target == t ==> heard[j].time > at
  }

  lemma OutsideWindow(since: int, now: int, window: u32)
    requires since <= now && !Within(since, now, window)
    ensures now - since >= window * NS_PER_MS
  {
  }

  /** The anti-flapping promise, for every authorized failback of every run of a process, fresh or
      restarted, with a clock that never goes back: the slot has not been given an assignment for the
      cooldown, the preferred target has been ready throughout the hysteresis window, and the budget
      is not used up. */
  lemma AuthorizedFailbackIsCalm(f: Fabric, d: Store, start: int, cs: seq<Command>, slot: SlotKey, now: int,
                                 instant: int)
    requires Newborn(f) && TimelyRun(NewSession(f, d, start), cs)
    requires var e := ExecAll(NewSession(f, d, start), cs); e.clock <= now && Evaluate(e.fab, slot, now).Authorize?
    ensures var e := ExecAll(NewSession(f, d, start), cs);
            var svc := FindService(e.fab.world.services, slot.service);
            && svc.Some? && slot in e.fab.book.preferred
            && var pref := e.fab.book.preferred[slot];
            && var limits := svc.value.antiFlapping;
            && (slot in e.moved ==> now - e.moved[slot] >= limits.cooldownMs * NS_PER_MS)
            && (limits.hysteresisMs > 0 && now - limits.hysteresisMs * NS_PER_MS <= instant <= now ==>
                ReadyAt(e.heard, pref, instant))
            && TallyOf(e, slot).returned < limits.maxAutoAttempts
  {
    hide ExecAll, TimelyRun, FindService, CurrentOf, TargetRecordOf, Within, LastHeard, LastReady, TargetsOk;
    NewSessionSound(f, d, start);
    SoundOverRuns(NewSession(f, d, start), cs);
    var e := ExecAll(NewSession(f, d, start), cs);
    AuthorizedHasHome(e.fab, slot, now);
    var pref := e.fab.book.preferred[slot];
    var limits := FindService(e.fab.world.services, slot.service).value.antiFlapping;
    assert TransitionKept(e, slot) && BudgetKept(e.fab, slot) && TallyKept(e, slot) && FactsHeard(e, pref);
    if slot in e.moved {
      OutsideWindow(e.fab.book.lastTransition[slot], now, limits.cooldownMs);
    }
    if limits.hysteresisMs > 0 && now - limits.hysteresisMs * NS_PER_MS <= instant <= now {
      var i := LastHeard(e.heard, pref).value;
      OutsideWindow(e.heard[i].time, now, limits.hysteresisMs);
      assert SaidReady(e.heard, pref, instant, i);
    }
  }

  // ----- the budget ------------------------------------------------------------------

  /** What the service allows; an unknown service allows nothing. */
  function BudgetOf(f: Fabric, slot: SlotKey): nat {
    var svc := FindService(f.world.services, slot.service);
    if svc.Some? then svc.value.antiFlapping.maxAutoAttempts else 0
  }

  /** `n` more commits and routes will not use up a counter. */
  ghost predicate Room(f: Fabric, n: nat) {
    && f.ledger.lastAuthority + n < U64_LIMIT - 1 && 2 + n < U64_LIMIT - 1
    && forall i :: 0 <= i < |f.routes| ==> f.routes[i].current.generation + n < U64_LIMIT - 1
  }

  /** The command itself brings no route generation near the limit. */
  predicate Modest(c: Command, n: nat) {
    match c
    case Call(InstallRoute(e, _)) => e.generation + n < U64_LIMIT - 1
    case RunFailover(plan, _) => plan.routeGeneration + n < U64_LIMIT - 1
    case _ => true
  }

  /** A whole run leaves room in the counters; this can be told from its start and its commands. */
  ghost predicate CountersLast(f: Fabric, cs: seq<Command>) {
    Room(f, |cs|) && forall i :: 0 <= i < |cs| ==> Modest(cs[i], |cs|)
  }

  predicate AllSaved(r: Replies) {
    r.intentSaved && r.fenceSaved && r.activationSaved && r.routeSaved
  }

  /** No checkpoint of a failback of the slot can fail to be written. */
  ghost predicate NoSaveFails(d: Store, cs: seq<Command>, slot: SlotKey) {
    d.checkpointing ==> forall i :: 0 <= i < |cs| && cs[i].RunFailback? && cs[i].slot == slot ==>
      AllSaved(cs[i].replies)
  }

  lemma PhasesReturn(f: Fabric, d: Store, a: Attempt, r: Replies)
    requires !d.checkpointing || AllSaved(r)
    ensures IntentPhase(f, d, a, r).Done?
  {
    hide SnapshotOf, CommitSection, InstallSection, FenceSection, RouteFor;
  }

  lemma RoomToPlan(f: Fabric, slot: SlotKey, preferred: Option<u64>, rank: Rank)
    requires Room(f, 0)
    ensures !PlanFailover(f, slot, preferred, rank).Exhausted?
    ensures PlanFailover(f, slot, preferred, rank).Planned? ==>
              !Validate(f, PlanFailover(f, slot, preferred, rank).plan).Threw?
  {
    hide Select, Candidates, BuildContext, CurrentOf, FindService, Eligible, FirstMatch;
  }

  /** With counters left and every checkpoint written, or none asked for, a failback returns. */
  lemma FailbackReturns(f: Fabric, d: Store, slot: SlotKey, rank: Rank, now: int, r: Replies, after: int)
    requires Room(f, 0) && (!d.checkpointing || AllSaved(r))
    ensures ExecuteFailback(f, d, slot, rank, now, r, after).Done?
  {
    hide Evaluate, PlanFailover, Validate, IntentPhase, Room;
    if Evaluate(f, slot, now).Authorize? {
      AuthorizedHasHome(f, slot, now);
      var p := PlanFailover(f, slot, Some(f.book.preferred[slot]), rank);
      RoomToPlan(f, slot, Some(f.book.preferred[slot]), rank);
      if p.Planned? && Validate(f, p.plan).Valid? {
        PhasesReturn(BeginSection(f, p.plan), d, Validate(f, p.plan).attempt, r);
      }
    }
  }

  // What an attempt does to the counters and to the store.

  /** At most one commit, at most one route, and that of generation `g`. */
  ghost predicate Spends(f: Fabric, d: Store, o: Outcome, g: u64) {
    && o.store.checkpointing == d.checkpointing
    && f.ledger.lastAuthority <= o.fab.ledger.lastAuthority <= f.ledger.lastAuthority + 1
    && (o.fab.routes == f.routes || exists e: RouteEntry :: e.generation == g && o.fab.routes == Install(f.routes, e))
  }

  lemma VerifySpends(f: Fabric, d: Store, a: Attempt, r: Replies)
    requires a.next.authorityGeneration == f.ledger.lastAuthority + 1
    ensures var o := VerifyPhase(f, d, a, r);
            && o.store == d && o.fab.routes == f.routes
            && f.ledger.lastAuthority <= o.fab.ledger.lastAuthority <= f.ledger.lastAuthority + 1
  {
    hide Supersedes, CommitSlots, AddFenced;
  }

  lemma RouteSpends(f: Fabric, d: Store, a: Attempt, r: Replies)
    requires a.next.authorityGeneration == f.ledger.lastAuthority + 1
    ensures Spends(f, d, RoutePhase(f, d, a, r), a.next.routeGeneration)
  {
    hide Install, SnapshotOf, VerifyPhase, Decimal;
    var e := RouteFor(f, a);
    assert e.generation == a.next.routeGeneration;
    var h := MarkTxn(f.(routes := Install(f.routes, e)), RouteInstalled, a, Some(e));
    VerifySpends(h, Record(h, d), a, r);
  }

  lemma FenceSpends(f: Fabric, d: Store, a: Attempt, r: Replies)
    requires a.next.authorityGeneration == f.ledger.lastAuthority + 1
    ensures Spends(f, d, FencePhase(f, d, a, r), a.next.routeGeneration)
  {
    hide RoutePhase, SnapshotOf, AddFenced, Install;
    var g := FenceSection(f, a, r.fenceApplied, r.fenceUnproven).0;
    var h := MarkTxn(MarkTxn(g, OldAdmissionFenced, a, None), ActivationAcknowledged, a, None);
    RouteSpends(h, Record(h, Record(MarkTxn(g, OldAdmissionFenced, a, None), d)), a, r);
  }

  lemma ExecuteSpends(f: Fabric, d: Store, plan: Plan, r: Replies)
    ensures Spends(f, d, Execute(f, d, plan, r), plan.routeGeneration)
  {
    hide Validate, FencePhase, SnapshotOf, Install;
    if Validate(f, plan).Valid? {
      ValidatedCounters(f, plan);
      var h := MarkTxn(BeginSection(f, plan), IntentOnly, Validate(f, plan).attempt, None);
      FenceSpends(h, Record(h, d), Validate(f, plan).attempt, r);
    }
  }

  lemma ValidatedCounters(f: Fabric, plan: Plan)
    requires Validate(f, plan).Valid?
    ensures Validate(f, plan).attempt.next.authorityGeneration == f.ledger.lastAuthority + 1
    ensures Validate(f, plan).attempt.next.routeGeneration == plan.routeGeneration
  {
    hide Candidates, BuildContext, Eligible, CurrentOf, UsesCuda, FindService, MintedId;
  }

  lemma InstallLeavesRoom(f: Fabric, e: RouteEntry, n: nat)
    requires Room(f, n) && e.generation + n < U64_LIMIT - 1
    ensures Room(f.(routes := Install(f.routes, e)), n)
  {
    hide Installable;
  }

  lemma SpendsLeavesRoom(f: Fabric, d: Store, o: Outcome, g: u64, n: nat)
    requires Room(f, n + 1) && Spends(f, d, o, g) && g + n < U64_LIMIT - 1
    ensures Room(o.fab, n)
  {
    hide Install;
    if o.fab.routes != f.routes {
      var e: RouteEntry :| e.generation == g && o.fab.routes == Install(f.routes, e);
      InstallLeavesRoom(f, e, n);
    }
  }

  lemma CallLeavesRoom(s: Session, op: Op, n: nat)
    requires Room(s.fab, n) && Modest(Call(op), n)
    ensures Room(CallStep(s, op).fab, n)
  {
    hide PerformWorld, PerformBook, Install, InitialAllowed;
    match op {
      case InstallRoute(e, boot) => InstallLeavesRoom(s.fab, e.(state := Acknowledged, gatewayBoot := boot), n);
      case _ =>
    }
  }

  /** The generation that a failback's plan asks for. */
  lemma PlannedGeneration(f: Fabric, slot: SlotKey, preferred: Option<u64>, rank: Rank, n: nat)
    requires Room(f, n + 1) && PlanFailover(f, slot, preferred, rank).Planned?
    ensures PlanFailover(f, slot, preferred, rank).plan.routeGeneration + n < U64_LIMIT - 1
  {
    hide Select, Candidates, BuildContext, CurrentOf, FindService;
  }

  lemma FailbackSpends(f: Fabric, d: Store, slot: SlotKey, rank: Rank, now: int, r: Replies, after: int, n: nat)
    requires Room(f, n + 1)
    ensures var o := ExecuteFailback(f, d, slot, rank, now, r, after);
            o.store.checkpointing == d.checkpointing && Room(o.fab, n)
  {
    hide Evaluate, PlanFailover, Execute;
    if Evaluate(f, slot, now).Authorize? {
      AuthorizedHasHome(f, slot, now);
      var p := PlanFailover(f, slot, Some(f.book.preferred[slot]), rank);
      if p.Planned? {
        PlannedGeneration(f, slot, Some(f.book.preferred[slot]), rank, n);
        ExecuteSpends(f, d, p.plan, r);
        SpendsLeavesRoom(f, d, Execute(f, d, p.plan, r), p.plan.routeGeneration, n);
      }
    }
  }

  lemma ExecLeavesRoom(s: Session, c: Command, n: nat)
    requires Room(s.fab, n + 1) && Modest(c, n)
    ensures Room(Exec(s, c).fab, n) && Exec(s, c).store.checkpointing == s.store.checkpointing
  {
    hide Room, CallStep, Execute, ExecuteFailback, Spends, Undertaken;
    match c {
      case Call(op) =>
        LessRoom(s.fab, n);
        CallLeavesRoom(s, op, n);
        CallKeepsStore(s, op);
      case RunFailover(plan, r) =>
        ExecuteSpends(s.fab, s.store, plan, r);
        SpentStore(s.fab, s.store, Execute(s.fab, s.store, plan, r), plan.routeGeneration);
        SpendsLeavesRoom(s.fab, s.store, Execute(s.fab, s.store, plan, r), plan.routeGeneration, n);
      case RunFailback(slot, rank, at, r, after) => FailbackSpends(s.fab, s.store, slot, rank, at, r, after, n);
    }
  }

  lemma LessRoom(f: Fabric, n: nat)
    requires Room(f, n + 1)
    ensures Room(f, n)
  {
  }

  lemma CallKeepsStore(s: Session, op: Op)
    ensures CallStep(s, op).store == s.store
  {
    hide Perform;
  }

  lemma SpentStore(f: Fabric, d: Store, o: Outcome, g: u64)
    requires Spends(f, d, o, g)
    ensures o.store.checkpointing == d.checkpointing
  {
    hide Install;
  }

  lemma NothingRaised(s: Session, c: Command, slot: SlotKey)
    requires Room(s.fab, 0) && TallyOf(s, slot).raised == 0 && NoSaveFails(s.store, [c], slot)
    ensures TallyOf(Exec(s, c), slot).raised == 0
  {
    hide Room, Perform, Execute, ExecuteFailback, Undertaken, InitialAllowed, FactsAccepted;
    if c.RunFailback? && c.slot == slot {
      assert [c][0] == c;
      FailbackReturns(s.fab, s.store, slot, c.rank, c.at, c.replies, c.after);
    }
  }

  lemma {:induction false} RunRaisesNothing(s: Session, cs: seq<Command>, slot: SlotKey)
    requires CountersLast(s.fab, cs) && TallyOf(s, slot).raised == 0 && NoSaveFails(s.store, cs, slot)
    ensures TallyOf(ExecAll(s, cs), slot).raised == 0
    decreases |cs|
  {
    hide Exec, Room, AllSaved, TallyOf;
    if cs != [] {
      var n := |cs| - 1;
      ModestLess(cs[0], n);
      ExecLeavesRoom(s, cs[0], n);
      MuchRoom(s.fab, |cs|);
      assert NoSaveFails(s.store, [cs[0]], slot);
      NothingRaised(s, cs[0], slot);
      forall i | 0 <= i < |cs[1..]| ensures Modest(cs[1..][i], n) {
        ModestLess(cs[i + 1], n);
      }
      RunRaisesNothing(Exec(s, cs[0]), cs[1..], slot);
    }
  }

  lemma ModestLess(c: Command, n: nat)
    requires Modest(c, n + 1)
    ensures Modest(c, n)
  {
  }

  lemma MuchRoom(f: Fabric, n: nat)
    requires Room(f, n)
    ensures Room(f, 0)
  {
  }

  /** The code's counter is the number of failbacks of the slot that came back without completing
      since the last success or initial assignment, and never exceeds the budget. In a run that leaves
      room in the counters, and in which no checkpoint of such a failback fails to be written or none
      is asked for, none ends with an exception: all that failed together are within the budget. */
  lemma BudgetNeverExceeded(f: Fabric, d: Store, start: int, cs: seq<Command>, slot: SlotKey)
    requires Newborn(f) && TimelyRun(NewSession(f, d, start), cs)
    ensures var e := ExecAll(NewSession(f, d, start), cs);
            var t := TallyOf(e, slot);
            && AttemptsOf(e.fab.book, slot) == t.returned <= BudgetOf(e.fab, slot)
            && (CountersLast(f, cs) && NoSaveFails(d, cs, slot) ==>
                 t.raised == 0 && t.returned + t.raised <= BudgetOf(e.fab, slot))
  {
    hide ExecAll, TimelyRun, FindService, CountersLast, NoSaveFails;
    NewSessionSound(f, d, start);
    SoundOverRuns(NewSession(f, d, start), cs);
    SoundBudget(ExecAll(NewSession(f, d, start), cs), slot);
    if CountersLast(f, cs) && NoSaveFails(d, cs, slot) {
      RunRaisesNothing(NewSession(f, d, start), cs, slot);
    }
  }

  lemma SoundBudget(e: Session, slot: SlotKey)
    requires Sound(e)
    ensures AttemptsOf(e.fab.book, slot) == TallyOf(e, slot).returned <= BudgetOf(e.fab, slot)
  {
    hide FindService, HearingSound, TransitionKept;
    assert BudgetKept(e.fab, slot) && TallyKept(e, slot);
  }

  /** A failback whose first checkpoint cannot be written. */
  function Unsaved(slot: SlotKey, rank: Rank, at: int): Command {
    RunFailback(slot, rank, at, Replies(false, true, false, true, true, true, true, true, true, at), at)
  }

  function Repeat(c: Command, n: nat): seq<Command> {
    if n == 0 then [] else [c] + Repeat(c, n - 1)
  }

  /** A failback of the slot would be undertaken, and its attempt would begin. */
  predicate Ready(s: Session, slot: SlotKey, rank: Rank, at: int) {
    && s.clock <= at && Undertaken(s.fab, slot, rank, at)
    && Validate(s.fab, PlanFailover(s.fab, slot, Some(s.fab.book.preferred[slot]), rank).plan).Valid?
  }

  /** The same, with checkpoints configured. */
  predicate Raisable(s: Session, slot: SlotKey, rank: Rank, at: int) {
    s.store.checkpointing && Ready(s, slot, rank, at)
  }

  /** States that planning and validation cannot tell apart. */
  predicate Alike(f: Fabric, g: Fabric) {
    g.world == f.world && g.routes == f.routes && g.book == f.book && g.ledger == f.ledger.(minted := g.ledger.minted)
  }

  lemma AlikeContext(f: Fabric, g: Fabric, slot: SlotKey, preferred: Option<u64>)
    requires Alike(f, g)
    ensures CurrentOf(g.ledger, slot) == CurrentOf(f.ledger, slot)
            && BuildContext(g, slot, preferred) == BuildContext(f, slot, preferred)
  {
    hide BoundTargets, Failed, SortUnique, DomainsOfAll;
  }

  lemma AlikePlans(f: Fabric, g: Fabric, slot: SlotKey, rank: Rank, at: int)
    requires Alike(f, g) && Undertaken(f, slot, rank, at)
    ensures Undertaken(g, slot, rank, at)
    ensures PlanFailover(g, slot, Some(g.book.preferred[slot]), rank)
            == PlanFailover(f, slot, Some(f.book.preferred[slot]), rank)
  {
    hide BuildContext, Candidates, FindService, CurrentOf, CurrentRoute, Select, TargetReady, Within;
    AlikeEvaluates(f, g, slot, at);
    AuthorizedHasHome(f, slot, at);
    AlikeContext(f, g, slot, Some(f.book.preferred[slot]));
  }

  lemma AlikeEvaluates(f: Fabric, g: Fabric, slot: SlotKey, at: int)
    requires Alike(f, g)
    ensures Evaluate(g, slot, at) == Evaluate(f, slot, at)
  {
    hide FindService, CurrentOf, TargetReady, Within, BuildContext;
    AlikeContext(f, g, slot, None);
  }

  lemma AlikeValidates(f: Fabric, g: Fabric, plan: Plan)
    requires Alike(f, g) && Validate(f, plan).Valid?
    ensures Validate(g, plan).Valid?
  {
    hide BuildContext, Candidates, FindService, CurrentOf, Eligible, NextAssignment;
    AlikeContext(f, g, plan.slot, None);
  }

  lemma RaisesOnce(s: Session, slot: SlotKey, rank: Rank, at: int)
    requires Raisable(s, slot, rank, at)
    ensures var n := Exec(s, Unsaved(slot, rank, at));
            && Raisable(n, slot, rank, at) && Alike(s.fab, n.fab) && Timely(s, Unsaved(slot, rank, at))
            && TallyOf(n, slot) == Tally(TallyOf(s, slot).returned, TallyOf(s, slot).raised + 1)
  {
    hide Evaluate, PlanFailover, Validate, SnapshotOf, FencePhase;
    var n := Exec(s, Unsaved(slot, rank, at));
    AuthorizedHasHome(s.fab, slot, at);
    assert Alike(s.fab, n.fab);
    AlikePlans(s.fab, n.fab, slot, rank, at);
    AlikeValidates(s.fab, n.fab, PlanFailover(s.fab, slot, Some(s.fab.book.preferred[slot]), rank).plan);
  }

  /** Failbacks that end with an exception are not counted: wherever one would be undertaken, any
      number of them can fail in a row because the first checkpoint cannot be written, and the next
      one is authorized all the same. */
  lemma {:induction false} RaisedWithoutEnd(s: Session, slot: SlotKey, rank: Rank, at: int, n: nat)
    requires Raisable(s, slot, rank, at)
    ensures var cs := Repeat(Unsaved(slot, rank, at), n);
            var e := ExecAll(s, cs);
            && TimelyRun(s, cs) && Evaluate(e.fab, slot, at).Authorize?
            && AttemptsOf(e.fab.book, slot) == AttemptsOf(s.fab.book, slot)
            && TallyOf(e, slot) == Tally(TallyOf(s, slot).returned, TallyOf(s, slot).raised + n)
    decreases n
  {
    hide Exec, Timely, Evaluate, Raisable, Unsaved, TallyOf;
    var c := Unsaved(slot, rank, at);
    RaisableIsAuthorized(s, slot, rank, at);
    if n > 0 {
      RaisesOnce(s, slot, rank, at);
      RaisedWithoutEnd(Exec(s, c), slot, rank, at, n - 1);
      assert Repeat(c, n)[0] == c && Repeat(c, n)[1..] == Repeat(c, n - 1);
    }
  }

  lemma RaisableIsAuthorized(s: Session, slot: SlotKey, rank: Rank, at: int)
    requires Raisable(s, slot, rank, at)
    ensures Evaluate(s.fab, slot, at).Authorize?
  {
    hide Evaluate, PlanFailover, Validate;
  }

  /** Room in the counters is needed, checkpoints or not: once the slot's route generation is used up,
      every failback that is authorized and finds a target ends with an exception, without end. */
  lemma {:induction false} ExhaustedWithoutEnd(s: Session, slot: SlotKey, rank: Rank, at: int, n: nat)
    requires s.clock <= at && Evaluate(s.fab, slot, at).Authorize?
    requires PlanFailover(s.fab, slot, Some(s.fab.book.preferred[slot]), rank).Exhausted?
    ensures var cs := Repeat(Unsaved(slot, rank, at), n);
            var e := ExecAll(s, cs);
            && TimelyRun(s, cs) && e.fab == s.fab
            && TallyOf(e, slot) == Tally(TallyOf(s, slot).returned, TallyOf(s, slot).raised + n)
    decreases n
  {
    hide Evaluate, PlanFailover;
    if n > 0 {
      var c := Unsaved(slot, rank, at);
      var e := Exec(s, c);
      assert e.fab == s.fab && e.clock == at && Timely(s, c);
      assert TallyOf(e, slot) == Tally(TallyOf(s, slot).returned, TallyOf(s, slot).raised + 1);
      assert Repeat(c, n)[0] == c && Repeat(c, n)[1..] == Repeat(c, n - 1);
      hide Exec, Timely, TallyOf;
      ExhaustedWithoutEnd(e, slot, rank, at, n - 1);
    }
  }

  /** The run leaves room in the counters and ends with more failed failbacks than the service allows. */
  ghost predicate Exceeds(s: Session, cs: seq<Command>, slot: SlotKey) {
    && TimelyRun(s, cs) && CountersLast(s.fab, cs)
    && var t := TallyOf(ExecAll(s, cs), slot); t.returned + t.raised > BudgetOf(ExecAll(s, cs).fab, slot)
  }

  lemma ModestRepeat(slot: SlotKey, rank: Rank, at: int, n: nat, m: nat)
    ensures |Repeat(Unsaved(slot, rank, at), n)| == n
    ensures forall i :: 0 <= i < n ==> Modest(Repeat(Unsaved(slot, rank, at), n)[i], m)
  {
    if n > 0 {
      ModestRepeat(slot, rank, at, n - 1, m);
    }
  }

  lemma {:induction false} RepeatKeepsServices(s: Session, slot: SlotKey, rank: Rank, at: int, n: nat)
    requires Raisable(s, slot, rank, at)
    ensures ExecAll(s, Repeat(Unsaved(slot, rank, at), n)).fab.world == s.fab.world
    decreases n
  {
    hide Exec, Raisable, Unsaved;
    if n > 0 {
      var c := Unsaved(slot, rank, at);
      RaisesOnce(s, slot, rank, at);
      RepeatKeepsServices(Exec(s, c), slot, rank, at, n - 1);
      assert Repeat(c, n)[0] == c && Repeat(c, n)[1..] == Repeat(c, n - 1);
    }
  }

  /** In any state of any run in which no failback of the slot has ended with an exception, one would be
      undertaken and the counters have room: some continuation that leaves room in the counters lets
      more failbacks fail than the budget allows if and only if checkpoints are configured. */
  lemma BudgetExceededIff(f: Fabric, d: Store, start: int, pre: seq<Command>, slot: SlotKey, rank: Rank, at: int)
    requires Newborn(f) && TimelyRun(NewSession(f, d, start), pre)
    requires var s := ExecAll(NewSession(f, d, start), pre);
             Ready(s, slot, rank, at) && TallyOf(s, slot).raised == 0 && Room(s.fab, BudgetOf(s.fab, slot) + 1)
    ensures var s := ExecAll(NewSession(f, d, start), pre);
            (exists cs :: Exceeds(s, cs, slot)) <==> s.store.checkpointing
  {
    var s := ExecAll(NewSession(f, d, start), pre);
    hide ExecAll, TimelyRun, Ready, Sound, Room, BudgetOf, CountersLast;
    NewSessionSound(f, d, start);
    SoundOverRuns(NewSession(f, d, start), pre);
    if s.store.checkpointing {
      SomeRunExceeds(s, slot, rank, at);
    } else {
      forall cs ensures !Exceeds(s, cs, slot) {
        if TimelyRun(s, cs) && CountersLast(s.fab, cs) {
          SoundOverRuns(s, cs);
          SoundBudget(ExecAll(s, cs), slot);
          RunRaisesNothing(s, cs, slot);
        }
      }
    }
  }

  lemma SomeRunExceeds(s: Session, slot: SlotKey, rank: Rank, at: int)
    requires s.store.checkpointing && Ready(s, slot, rank, at) && Room(s.fab, BudgetOf(s.fab, slot) + 1)
    ensures exists cs :: Exceeds(s, cs, slot)
  {
    var n := BudgetOf(s.fab, slot) + 1;
    var cs := Repeat(Unsaved(slot, rank, at), n);
    hide ExecAll, TimelyRun, Room, Ready, Modest, Unsaved, TallyOf, Evaluate;
    ModestRepeat(slot, rank, at, n, n);
    RaisedWithoutEnd(s, slot, rank, at, n);
    RepeatKeepsServices(s, slot, rank, at, n);
    assert Exceeds(s, cs, slot);
  }

  // ----- hysteresis ------------------------------------------------------------------

  /** The hysteresis test of `Evaluate`. */
  predicate Settled(b: Book, pref: u64, now: int, window: u32) {
    window == 0 || (pref in b.readySince && !Within(b.readySince[pref], now, window))
  }

  /** An authorized failback has passed the hysteresis test, and none that has passed it is refused
      because of it. */
  lemma SettledIsTested(f: Fabric, slot: SlotKey, now: int)
    requires FindService(f.world.services, slot.service).Some? && slot in f.book.preferred
    ensures var settled :=
            Settled(f.book, f.book.preferred[slot], now,
                    FindService(f.world.services, slot.service).value.antiFlapping.hysteresisMs);
            && (Evaluate(f, slot, now).Authorize? ==> settled)
            && (Evaluate(f, slot, now).Refuse? ==>
                  Evaluate(f, slot, now).why.NeverReady? || Evaluate(f, slot, now).why.InHysteresis? ==> !settled)
  {
    hide FindService, CurrentOf, TargetReady, Within;
  }

  /** The last accepted ready publication of the target was heard at least the window ago. */
  predicate LongReady(heard: seq<Heard>, t: u64, now: int, window: u32) {
    LastReady(heard, t).Some? && now - heard[LastReady(heard, t).value].time >= window * NS_PER_MS
  }

  lemma WithinIff(since: int, now: int, window: u32)
    requires since <= now
    ensures Within(since, now, window) <==> now - since < window * NS_PER_MS
  {
  }

  /** In every run of a process the hysteresis test passes if and only if no window is asked for or
      the last accepted ready publication of the preferred target is at least the window old. */
  lemma HysteresisPassesIff(f: Fabric, d: Store, start: int, cs: seq<Command>, pref: u64, now: int, window: u32)
    requires Newborn(f) && TimelyRun(NewSession(f, d, start), cs) && ExecAll(NewSession(f, d, start), cs).clock <= now
    ensures var e := ExecAll(NewSession(f, d, start), cs);
            Settled(e.fab.book, pref, now, window) <==> window == 0 || LongReady(e.heard, pref, now, window)
  {
    hide ExecAll, TimelyRun, Within, LastReady, LastHeard;
    NewSessionSound(f, d, start);
    SoundOverRuns(NewSession(f, d, start), cs);
    SettledIff(ExecAll(NewSession(f, d, start), cs), pref, now, window);
  }

  lemma SettledIff(e: Session, pref: u64, now: int, window: u32)
    requires HearingSound(e) && e.clock <= now
    ensures Settled(e.fab.book, pref, now, window) <==> window == 0 || LongReady(e.heard, pref, now, window)
  {
    hide Within, LastReady, LastHeard, TargetsOk, FactsHeard;
    assert ReadyTimed(e, pref);
    if LastReady(e.heard, pref).Some? {
      WithinIff(e.heard[LastReady(e.heard, pref).value].time, now, window);
    }
  }

  /** Whenever a failback of the slot is asked for, the preferred target has said that it is ready
      within the hysteresis window. */
  predicate Beating(s: Session, cs: seq<Command>, slot: SlotKey)
    decreases |cs|
  {
    cs == [] || ((cs[0].RunFailback? && cs[0].slot == slot ==> Recent(s, slot, cs[0].at))
                 && Beating(Exec(s, cs[0]), cs[1..], slot))
  }

  predicate Recent(s: Session, slot: SlotKey, at: int) {
    var svc := FindService(s.fab.world.services, slot.service);
    && svc.Some? && slot in s.fab.book.preferred
    && var last := LastReady(s.heard, s.fab.book.preferred[slot]);
       last.Some? && at - s.heard[last.value].time < svc.value.antiFlapping.hysteresisMs * NS_PER_MS
  }

  /** No failback of the slot changes anything in the coordinator. */
  predicate NeverGoesBack(s: Session, cs: seq<Command>, slot: SlotKey)
    decreases |cs|
  {
    cs == [] || ((cs[0].RunFailback? && cs[0].slot == slot ==> Exec(s, cs[0]).fab == s.fab)
                 && NeverGoesBack(Exec(s, cs[0]), cs[1..], slot))
  }

  lemma RecentIsRefused(s: Session, slot: SlotKey, rank: Rank, at: int, r: Replies, after: int)
    requires HearingSound(s) && s.clock <= at && Recent(s, slot, at)
    ensures Exec(s, RunFailback(slot, rank, at, r, after)).fab == s.fab
  {
    hide FindService, LastReady, LastHeard, Evaluate, PlanFailover, Execute, TargetsOk, Within;
    var pref := s.fab.book.preferred[slot];
    var window := FindService(s.fab.world.services, slot.service).value.antiFlapping.hysteresisMs;
    assert s.heard[LastReady(s.heard, pref).value].time <= s.clock;
    SettledIff(s, pref, at, window);
    SettledIsTested(s.fab, slot, at);
  }

  lemma {:induction false} RunBeating(s: Session, cs: seq<Command>, slot: SlotKey)
    requires Sound(s) && TimelyRun(s, cs) && Beating(s, cs, slot)
    ensures NeverGoesBack(s, cs, slot)
    decreases |cs|
  {
    hide Exec, Recent, HearingSound, TransitionKept, BudgetKept, TallyKept;
    if cs != [] {
      if cs[0].RunFailback? && cs[0].slot == slot {
        RecentIsRefused(s, slot, cs[0].rank, cs[0].at, cs[0].replies, cs[0].after);
      }
      ExecKeeps(s, cs[0]);
      RunBeating(Exec(s, cs[0]), cs[1..], slot);
    }
  }

  /** A target that keeps publishing its readiness within the hysteresis window is never gone back
      to, in any run of a process: each publication starts the window again. */
  lemma HeartbeatDefersFailback(f: Fabric, d: Store, start: int, cs: seq<Command>, slot: SlotKey)
    requires Newborn(f) && TimelyRun(NewSession(f, d, start), cs) && Beating(NewSession(f, d, start), cs, slot)
    ensures NeverGoesBack(NewSession(f, d, start), cs, slot)
  {
    hide TimelyRun, Beating, NeverGoesBack, Sound;
    NewSessionSound(f, d, start);
    RunBeating(NewSession(f, d, start), cs, slot);
  }

  // ----- the decision ----------------------------------------------------------------

  /** The window that began at `since` is over. A clock that has gone back by a millisecond or more
      counts as such. */
  predicate Elapsed(since: int, now: int, window: u32) {
    window == 0 || now - since >= window * NS_PER_MS || now - since <= -NS_PER_MS
  }

  lemma ElapsedIff(since: int, now: int, window: u32)
    ensures Elapsed(since, now, window) <==> !Within(since, now, window)
  {
    var ns := now - since;
    assert ns < 0 ==> (-ns / NS_PER_MS == 0 <==> -ns < NS_PER_MS);
    assert ns >= 0 ==> (ns / NS_PER_MS < window <==> ns < window * NS_PER_MS);
  }

  /** The policy lets a failback of the slot go ahead. */
  predicate PolicyAllows(p: FailbackPolicy, authorized: bool) {
    match p
    case Manual => authorized
    case StayOnCurrent => false
    case ReturnAfterValidation => true
  }

  /** When a failback is authorized, with no order of checks: the slot is away from a known home, the
      policy allows going back, the home target is fresh and ready, the slot has rested for the cooldown,
      the target has been ready for the hysteresis window, and the budget is not used up. */
  lemma AuthorizedIff(f: Fabric, slot: SlotKey, now: int)
    ensures Evaluate(f, slot, now).Authorize? <==>
            var svc := FindService(f.world.services, slot.service);
            var cur := CurrentOf(f.ledger, slot);
            && svc.Some? && cur.Some? && slot in f.book.preferred
            && var pref := f.book.preferred[slot];
            && var limits := svc.value.antiFlapping;
            && cur.value.target != pref
            && PolicyAllows(svc.value.failback, slot in f.book.manual)
            && TargetReady(f.world, pref)
            && (slot in f.book.lastTransition ==> Elapsed(f.book.lastTransition[slot], now, limits.cooldownMs))
            && (limits.hysteresisMs > 0 ==>
                  pref in f.book.readySince && Elapsed(f.book.readySince[pref], now, limits.hysteresisMs))
            && (slot in f.book.attempts ==> f.book.attempts[slot] < limits.maxAutoAttempts)
  {
    hide FindService, CurrentOf, TargetReady, Within, Elapsed;
    var svc := FindService(f.world.services, slot.service);
    if svc.Some? && slot in f.book.preferred {
      var pref, limits := f.book.preferred[slot], svc.value.antiFlapping;
      if slot in f.book.lastTransition {
        ElapsedIff(f.book.lastTransition[slot], now, limits.cooldownMs);
      }
      if pref in f.book.readySince {
        ElapsedIff(f.book.readySince[pref], now, limits.hysteresisMs);
      }
    }
  }

  /** What a refusal says is the case. */
  lemma RefusalExplained(f: Fabric, slot: SlotKey, now: int)
    requires Evaluate(f, slot, now).Refuse?
    ensures var why := Evaluate(f, slot, now).why;
            var svc := FindService(f.world.services, slot.service);
            var cur := CurrentOf(f.ledger, slot);
            && (why.NoService? <==> svc.None?)
            && (why.NoAssignment? ==> cur.None?)
            && (why.NoPreferred? ==> slot !in f.book.preferred)
            && (why.AlreadyHome? ==>
                  cur.Some? && slot in f.book.preferred && cur.value.target == f.book.preferred[slot])
            && (why.StaysOnCurrent? ==> svc.Some? && svc.value.failback.StayOnCurrent?)
            && (why.NotAuthorized? ==> svc.Some? && svc.value.failback.Manual? && slot !in f.book.manual)
            && (why.StaleTarget? ==> slot in f.book.preferred && !TargetReady(f.world, f.book.preferred[slot]))
            && (why.InCooldown? ==>
                  && svc.Some? && slot in f.book.lastTransition
                  && 0 < why.remaining <= svc.value.antiFlapping.cooldownMs
                  && !Elapsed(f.book.lastTransition[slot], now, svc.value.antiFlapping.cooldownMs))
            && (why.NeverReady? ==> slot in f.book.preferred && f.book.preferred[slot] !in f.book.readySince)
            && (why.InHysteresis? ==>
                  && svc.Some? && slot in f.book.preferred && f.book.preferred[slot] in f.book.readySince
                  && 0 < why.remaining <= svc.value.antiFlapping.hysteresisMs
                  && !Elapsed(f.book.readySince[f.book.preferred[slot]], now, svc.value.antiFlapping.hysteresisMs))
            && (why.AttemptsExhausted? ==>
                  svc.Some? && AttemptsOf(f.book, slot) >= svc.value.antiFlapping.maxAutoAttempts)
  {
    hide FindService, CurrentOf, TargetReady, Elapsed, Millis;
    var svc := FindService(f.world.services, slot.service);
    if svc.Some? && slot in f.book.preferred {
      var pref, limits := f.book.preferred[slot], svc.value.antiFlapping;
      if slot in f.book.lastTransition {
        ElapsedIff(f.book.lastTransition[slot], now, limits.cooldownMs);
      }
      if pref in f.book.readySince {
        ElapsedIff(f.book.readySince[pref], now, limits.hysteresisMs);
      }
    }
  }

  /** The operator has authorized a failback of the slot. */
  ghost predicate Authorized(cs: seq<Command>, slot: SlotKey) {
    exists i :: 0 <= i < |cs| && cs[i].Call? && cs[i].op == AuthorizeFailback(slot)
  }

  lemma {:induction false} ManualIffAuthorized(s: Session, cs: seq<Command>, slot: SlotKey)
    ensures slot in ExecAll(s, cs).fab.book.manual <==> slot in s.fab.book.manual || Authorized(cs, slot)
    decreases |cs|
  {
    hide Exec;
    if cs != [] {
      ManualStep(s, cs[0]);
      ManualIffAuthorized(Exec(s, cs[0]), cs[1..], slot);
      if i :| 0 <= i < |cs| - 1 && cs[1..][i].Call? && cs[1..][i].op == AuthorizeFailback(slot) {
        assert cs[i + 1] == cs[1..][i];
      }
      if i :| 1 <= i < |cs| && cs[i].Call? && cs[i].op == AuthorizeFailback(slot) {
        assert cs[1..][i - 1] == cs[i];
      }
    }
  }

  lemma ManualStep(s: Session, c: Command)
    ensures Exec(s, c).fab.book.manual ==
            s.fab.book.manual + (if c.Call? && c.op.AuthorizeFailback? then {c.op.slot} else {})
  {
    hide Evaluate, PlanFailover, Execute, PerformWorld, PerformRoutes, PerformLedger, InitialAllowed, FactsAccepted;
    match c {
      case Call(op) =>
      case RunFailover(plan, r) => ExecuteFrame(s.fab, s.store, plan, r);
      case RunFailback(slot, rank, at, r, after) =>
        if Evaluate(s.fab, slot, at).Authorize? {
          AuthorizedHasHome(s.fab, slot, at);
          if PlanFailover(s.fab, slot, Some(s.fab.book.preferred[slot]), rank).Planned? {
            ExecuteFrame(s.fab, s.store, PlanFailover(s.fab, slot, Some(s.fab.book.preferred[slot]), rank).plan, r);
          }
        }
    }
  }

  /** The decision over whole runs of a process, in terms of its history. A failback is authorized if and
      only if the slot was given an initial assignment and is now on another target, the policy is to
      return, or manual and an operator has called for it; the home target's last publication said ready;
      the recorded transition is a cooldown ago; that target's last ready publication a window ago; and
      fewer failbacks than the budget have come back failed. A service that stays on the current target
      is never gone back from. */
  lemma AuthorizedInRunIff(f: Fabric, d: Store, start: int, cs: seq<Command>, slot: SlotKey, now: int)
    requires Newborn(f) && TimelyRun(NewSession(f, d, start), cs) && ExecAll(NewSession(f, d, start), cs).clock <= now
    ensures var e := ExecAll(NewSession(f, d, start), cs);
            var svc := FindService(e.fab.world.services, slot.service);
            var cur := CurrentOf(e.fab.ledger, slot);
            Evaluate(e.fab, slot, now).Authorize? <==>
            && svc.Some? && cur.Some? && slot in e.home && cur.value.target != e.home[slot]
            && !svc.value.failback.StayOnCurrent? && (svc.value.failback.Manual? ==> Authorized(cs, slot))
            && ReadyNow(e.heard, e.home[slot])
            && (slot in e.moved ==>
                  && slot in e.fab.book.lastTransition
                  && now - e.fab.book.lastTransition[slot] >= svc.value.antiFlapping.cooldownMs * NS_PER_MS)
            && (svc.value.antiFlapping.hysteresisMs > 0 ==>
                  LongReady(e.heard, e.home[slot], now, svc.value.antiFlapping.hysteresisMs))
            && TallyOf(e, slot).returned < svc.value.antiFlapping.maxAutoAttempts
  {
    hide ExecAll, TimelyRun, FindService, CurrentOf, TargetReady, LastHeard, LastReady, TargetsOk, Evaluate, Authorized;
    var s := NewSession(f, d, start);
    var e := ExecAll(s, cs);
    NewSessionSound(f, d, start);
    SoundOverRuns(s, cs);
    ManualIffAuthorized(s, cs, slot);
    AuthorizedIff(e.fab, slot, now);
    assert TransitionKept(e, slot) && BudgetKept(e.fab, slot) && TallyKept(e, slot);
    if slot in e.home {
      var pref := e.home[slot];
      assert FactsHeard(e, pref) && ReadyTimed(e, pref);
      if LastReady(e.heard, pref).Some? {
        assert e.heard[LastReady(e.heard, pref).value].time <= e.clock;
      }
    }
  }

  /** An operator's authorization is never used up: no command takes it back. */
  lemma {:induction false} ManualAuthorizationPersists(s: Session, cs: seq<Command>)
    ensures s.fab.book.manual <= ExecAll(s, cs).fab.book.manual
    decreases |cs|
  {
    if cs != [] {
      ManualStep(s, cs[0]);
      hide Exec;
      ManualAuthorizationPersists(Exec(s, cs[0]), cs[1..]);
    }
  }
}
