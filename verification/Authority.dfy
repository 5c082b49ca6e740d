/** Whole runs of interleaved attempts refine atomic compare-and-swap on the current assignments,
    and where exactly they stop doing so. */
module Authority {
  import opened Types
  import opened Selection
  import opened Routing
  import opened Fabric
  import opened Operations
  import opened Durable
  import opened Cutover

  ghost predicate AdmissibleRun(es: seq<Event>, k: SlotKey) {
    forall i :: 0 <= i < |es| ==> Admissible(es[i], k)
  }

  /** The ids handed out so far never wrapped around. */
  predicate IdsLeft(m: Machine) {
    m.fab.ledger.minted < U64_LIMIT
  }

  lemma MintedGrows(m: Machine, e: Event)
    ensures m.fab.ledger.minted <= Next(m, e).fab.ledger.minted
  {
    hide BeginStep, VerifyStep, DoStep, MarkStep, SaveStep, FenceStep, ActivateStep, RouteStep, InstallStep, SnapshotOf;
    if !Loud(e) {
      QuietSteps(m, e);
    } else {
      match e {
        case Begin(t, plan) => BeginEffect(m, t, plan);
        case Do(op) => InitialMintsNothing(m, op);
        case VerifyReply(t, verified, now) => VerifyMintsNothing(m, t, verified, now);
      }
    }
  }

  lemma InitialMintsNothing(m: Machine, op: Op)
    ensures m.fab.ledger.minted == DoStep(m, op).fab.ledger.minted
  {
    hide PerformWorld, PerformRoutes, PerformBook, Initial;
  }

  lemma VerifyMintsNothing(m: Machine, t: nat, verified: bool, now: int)
    ensures m.fab.ledger.minted == VerifyStep(m, t, verified, now).fab.ledger.minted
  {
    hide CommitSlots, AddFenced, Supersedes;
  }

  lemma {:induction false} RunMints(m: Machine, es: seq<Event>)
    ensures m.fab.ledger.minted <= Run(m, es).fab.ledger.minted
    decreases |es|
  {
    hide Next;
    if es != [] {
      MintedGrows(m, es[0]);
      RunMints(Next(m, es[0]), es[1..]);
    }
  }

  lemma {:induction false} RunTracked(m: Machine, es: seq<Event>)
    requires Tracked(m)
    ensures Tracked(Run(m, es))
    decreases |es|
  {
    hide Next, Tracked;
    if es != [] {
      StepTracked(m, es[0]);
      RunTracked(Next(m, es[0]), es[1..]);
    }
  }

  /** Fencing and displacement are never taken back. */
  ghost predicate Grows(m: Machine, n: Machine) {
    && m.fab.ledger.fenced <= n.fab.ledger.fenced
    && forall k :: k in m.lineage ==> k in n.lineage && m.lineage[k] <= n.lineage[k]
  }

  lemma VerifyGrows(m: Machine, t: nat, verified: bool, now: int)
    ensures Grows(m, VerifyStep(m, t, verified, now))
  {
    hide CommitSlots, Supersedes;
  }

  lemma InitialGrows(m: Machine, op: Op)
    requires op.SetInitial?
    ensures Grows(m, DoStep(m, op))
  {
    hide PerformWorld, PerformRoutes, PerformBook, Initial, InitialAllowed;
  }

  lemma StepGrows(m: Machine, e: Event)
    ensures Grows(m, Next(m, e))
  {
    hide BeginStep, MarkStep, SaveStep, FenceStep, ActivateStep, RouteStep, InstallStep, VerifyStep, DoStep, SnapshotOf,
      SameWork;
    if !Loud(e) {
      QuietSteps(m, e);
    } else {
      match e {
        case Begin(t, plan) => BeginEffect(m, t, plan);
        case VerifyReply(t, verified, now) => VerifyGrows(m, t, verified, now);
        case Do(op) => InitialGrows(m, op);
      }
    }
  }

  lemma {:induction false} RunGrows(m: Machine, es: seq<Event>)
    ensures Grows(m, Run(m, es))
    decreases |es|
  {
    hide Next;
    if es != [] {
      StepGrows(m, es[0]);
      RunGrows(Next(m, es[0]), es[1..]);
    }
  }

  /** A slot that has a current assignment keeps having one. */
  lemma StaysAssigned(m: Machine, e: Event, k: SlotKey)
    requires Tracked(m) && CurrentOf(m.fab.ledger, k).Some?
    ensures CurrentOf(Next(m, e).fab.ledger, k).Some?
  {
    hide Next, Tracked, CurrentOf;
    StepTracked(m, e);
    StepGrows(m, e);
    TrackedAt(m, k);
    TrackedAt(Next(m, e), k);
  }

  /** An initial assignment is taken only by a slot that has none, so only there its key matters. */
  ghost predicate Covered(l: Ledger, es: seq<Event>, k: SlotKey) {
    CurrentOf(l, k).Some? || AdmissibleRun(es, k)
  }

  lemma {:induction false} InvariantOverRuns(m: Machine, es: seq<Event>, k: SlotKey)
    requires Invariant(m, k) && Covered(m.fab.ledger, es, k) && IdsLeft(Run(m, es))
    ensures Invariant(Run(m, es), k)
    decreases |es|
  {
    hide Next, Invariant, Admissible, CurrentOf;
    if es != [] {
      RunMints(Next(m, es[0]), es[1..]);
      StepKeeps(m, es[0], k);
      if CurrentOf(m.fab.ledger, k).Some? {
        assert Tracked(m) by { InvariantIsTracked(m, k); }
        StaysAssigned(m, es[0], k);
      } else {
        assert AdmissibleRun(es[1..], k);
      }
      InvariantOverRuns(Next(m, es[0]), es[1..], k);
    }
  }

  lemma InvariantIsTracked(m: Machine, k: SlotKey)
    requires Invariant(m, k)
    ensures Tracked(m)
  {
  }

  // ----- starting points -------------------------------------------------------------

  function FirstKeys(r: Registers): map<SlotKey, seq<Key>> {
    map k | k in r :: [KeyOf(r[k])]
  }

  /** A process that has just begun, with the assignments it holds and no attempt yet. */
  function Start(f: Fabric, disk: Option<Snapshot>, checkpointing: bool): Machine {
    Machine(f, map[], disk, checkpointing, FirstKeys(View(f.ledger)), [], View(f.ledger), f.ledger.minted)
  }

  /** Any process starts with the invariant, whatever keys it was loaded with. */
  lemma StartIsInvariant(f: Fabric, disk: Option<Snapshot>, checkpointing: bool, k: SlotKey)
    requires IndexExact(f.ledger)
    ensures Tracked(Start(f, disk, checkpointing)) && Invariant(Start(f, disk, checkpointing), k)
  {
    hide View, CurrentOf;
    var m := Start(f, disk, checkpointing);
    ViewDomain(f.ledger);
    forall j ensures Tracks(m.fab.ledger, m.lineage, j) {
    }
  }

  // ----- compare-and-swap ------------------------------------------------------------

  /** The slot holds no key that this process will hand out. */
  predicate SafeSlot(l: Ledger, k: SlotKey) {
    CurrentOf(l, k).Some? ==> Unmintable(KeyOf(CurrentOf(l, k).value)) || CurrentOf(l, k).value.id <= l.minted
  }

  /** What a commit displaces is the source its attempt captured, and that source is its immediate
      predecessor. On a slot that did not come up with a key that is handed out again, at most one
      attempt that captured a given source commits. */
  lemma AtMostOneCommitPerSource(f: Fabric, disk: Option<Snapshot>, checkpointing: bool, es: seq<Event>, i: nat, j: nat)
    requires IndexExact(f.ledger)
    requires var m := Run(Start(f, disk, checkpointing), es);
             IdsLeft(m) && i < j < |m.log| && Covered(f.ledger, es, m.log[i].attempt.slot)
    ensures var m := Run(Start(f, disk, checkpointing), es);
            && CommitOk(m.log[i], m.lineage)
            && (SafeSlot(f.ledger, m.log[i].attempt.slot) ==> !SameSource(m.log[i], m.log[j]))
  {
    hide Run, CommitOk, SameSource, Tracked, Chain, ProcessOk, OriginOk, View, Clash;
    var m := Start(f, disk, checkpointing);
    var k := Run(m, es).log[i].attempt.slot;
    StartIsInvariant(f, disk, checkpointing, k);
    InvariantOverRuns(m, es, k);
    RunKeepsOrigin(m, es);
    ViewDomain(f.ledger);
  }

  lemma {:induction false} RunKeepsOrigin(m: Machine, es: seq<Event>)
    ensures Run(m, es).origin == m.origin && Run(m, es).spent == m.spent
    decreases |es|
  {
    hide Next;
    if es != [] {
      StepKeepsOrigin(m, es[0]);
      RunKeepsOrigin(Next(m, es[0]), es[1..]);
    }
  }

  lemma StepKeepsOrigin(m: Machine, e: Event)
    ensures Next(m, e).origin == m.origin && Next(m, e).spent == m.spent
  {
    hide Perform, SnapshotOf, RouteFor, InstallSection, CommitSection, FenceSection, BeginSection, Validate, MarkTxn,
      InitialAllowed;
  }

  /** The specification: a register per slot, written only by these two operations. */
  datatype CasOp =
    | Put(slot: SlotKey, value: Assignment)                         // the slot must be empty
    | Swap(slot: SlotKey, expected: Option<Key>, value: Assignment) // the slot must hold `expected`, if given

  type Registers = map<SlotKey, Assignment>

  predicate Holds(r: Registers, op: CasOp) {
    match op
    case Put(k, _) => k !in r
    case Swap(k, expected, _) => expected.Some? ==> k in r && KeyOf(r[k]) == expected.value
  }

  predicate Legal(r: Registers, ops: seq<CasOp>)
    decreases |ops|
  {
    ops == [] || (Holds(r, ops[0]) && Legal(r[ops[0].slot := ops[0].value], ops[1..]))
  }

  function Play(r: Registers, ops: seq<CasOp>): Registers
    decreases |ops|
  {
    if ops == [] then r else Play(r[ops[0].slot := ops[0].value], ops[1..])
  }

  function View(l: Ledger): Registers {
    map k | k in l.index && CurrentOf(l, k).Some? :: CurrentOf(l, k).value
  }

  function Expected(a: Attempt): Option<Key> {
    if a.source.Some? then Some(KeyOf(a.source.value)) else None
  }

  /** The atomic operation that a step performs; all the other steps of an attempt are silent. */
  function Effect(m: Machine, e: Event): seq<CasOp> {
    match e
    case Do(SetInitial(a, _)) => if InitialAllowed(m.fab.ledger, a) then [Put(a.slot, Initial(m.fab.ledger, a))] else []
    case VerifyReply(t, verified, _) =>
      if Commits(m, t, verified) && HasSlot(m.fab.ledger, m.procs[t].attempt.slot)
      then [Swap(m.procs[t].attempt.slot, Expected(m.procs[t].attempt), Activated(m.procs[t].attempt))] else []
    case _ => []
  }

  function Effects(m: Machine, es: seq<Event>): seq<CasOp>
    decreases |es|
  {
    if es == [] then [] else Effect(m, es[0]) + Effects(Next(m, es[0]), es[1..])
  }

  lemma SameView(l: Ledger, n: Ledger)
    requires l.slots == n.slots && l.index == n.index
    ensures View(l) == View(n)
  {
  }

  lemma WrittenView(l: Ledger, n: Ledger, k0: SlotKey, a: Assignment)
    requires forall k :: CurrentOf(n, k) == if k == k0 then Some(a) else CurrentOf(l, k)
    ensures View(n) == View(l)[k0 := a]
  {
    hide CurrentOf;
    ViewDomain(l);
    ViewDomain(n);
  }

  lemma ViewDomain(l: Ledger)
    ensures forall k :: k in View(l) <==> CurrentOf(l, k).Some?
    ensures forall k :: k in View(l) ==> View(l)[k] == CurrentOf(l, k).value
  {
  }

  lemma CommitRefines(m: Machine, t: nat, now: int)
    requires Tracked(m) && Commits(m, t, true)
    ensures Legal(View(m.fab.ledger), Effect(m, VerifyReply(t, true, now)))
    ensures View(VerifyStep(m, t, true, now).fab.ledger)
            == Play(View(m.fab.ledger), Effect(m, VerifyReply(t, true, now)))
  {
    hide CurrentOf, HasSlot, Supersedes, CommitLedger, IndexExact, View, Activated;
    var a := m.procs[t].attempt;
    var l := m.fab.ledger;
    var n := VerifyStep(m, t, true, now).fab.ledger;
    assert n == CommitLedger(l, a);
    forall k ensures CurrentOf(n, k) ==
      if HasSlot(l, a.slot) && k == a.slot then Some(Activated(a)) else CurrentOf(l, k) {
      CommitCurrent(l, a, k);
    }
    ViewDomain(l);
    ViewDomain(n);
    if a.source.Some? {
      GuardIsExact(m, t);
    }
    if HasSlot(l, a.slot) {
      WrittenView(l, n, a.slot, Activated(a));
    } else {
      assert View(n) == View(l);
    }
  }

  lemma InitialRefines(m: Machine, a: Assignment, now: int)
    requires Tracked(m) && InitialAllowed(m.fab.ledger, a)
    ensures Legal(View(m.fab.ledger), [Put(a.slot, Initial(m.fab.ledger, a))])
    ensures View(DoStep(m, SetInitial(a, now)).fab.ledger)
            == Play(View(m.fab.ledger), [Put(a.slot, Initial(m.fab.ledger, a))])
  {
    hide CurrentOf, SetInitialLedger, IndexExact, View, Initial, PerformWorld, PerformRoutes, PerformBook;
    var l := m.fab.ledger;
    var n := DoStep(m, SetInitial(a, now)).fab.ledger;
    assert n == SetInitialLedger(l, a);
    forall k ensures CurrentOf(n, k) == if k == a.slot then Some(Initial(l, a)) else CurrentOf(l, k) {
      InitialCurrent(l, a, k);
    }
    ViewDomain(l);
    WrittenView(l, n, a.slot, Initial(l, a));
  }

  /** Every step is one legal register operation or leaves all registers alone; of the replies
      to a verification, exactly the completing ones commit. */
  lemma StepRefines(m: Machine, e: Event)
    requires Tracked(m)
    ensures Legal(View(m.fab.ledger), Effect(m, e))
    ensures View(Next(m, e).fab.ledger) == Play(View(m.fab.ledger), Effect(m, e))
    ensures e.VerifyReply? && At(m, e.tid, ToVerify) ==>
              (At(Next(m, e), e.tid, Ended(Completed)) <==> Commits(m, e.tid, e.verified))
  {
    hide Tracked, View, BeginStep, MarkStep, SaveStep, FenceStep, ActivateStep, RouteStep, InstallStep, DoStep,
      SnapshotOf, Supersedes, CommitLedger, Initial, Activated;
    if !Loud(e) {
      QuietSteps(m, e);
      SameView(m.fab.ledger, Next(m, e).fab.ledger);
    } else {
      match e {
        case Begin(t, plan) =>
          BeginEffect(m, t, plan);
          SameView(m.fab.ledger, Next(m, e).fab.ledger);
        case Do(op) =>
          if InitialAllowed(m.fab.ledger, op.assignment) {
            InitialRefines(m, op.assignment, op.now);
          } else {
            RefusedInitial(m, op);
            SameView(m.fab.ledger, Next(m, e).fab.ledger);
          }
        case VerifyReply(t, verified, now) =>
          if Commits(m, t, verified) {
            CommitRefines(m, t, now);
          } else {
            VerifyWithoutCommit(m, t, verified, now);
            SameView(m.fab.ledger, Next(m, e).fab.ledger);
          }
      }
    }
  }

  lemma RefusedInitial(m: Machine, op: Op)
    requires op.SetInitial? && !InitialAllowed(m.fab.ledger, op.assignment)
    ensures DoStep(m, op).fab.ledger == m.fab.ledger
  {
    hide PerformWorld, PerformRoutes, PerformBook;
  }

  lemma {:induction false} PlayConcat(r: Registers, a: seq<CasOp>, b: seq<CasOp>)
    ensures Play(r, a + b) == Play(Play(r, a), b)
    ensures Legal(r, a + b) <==> Legal(r, a) && Legal(Play(r, a), b)
    decreases |a|
  {
    if a == [] {
      assert a + b == b;
    } else {
      assert (a + b)[0] == a[0] && (a + b)[1..] == a[1..] + b;
      PlayConcat(r[a[0].slot := a[0].value], a[1..], b);
    }
  }

  /** The phase-split attempts, in any interleaving with each other and with other calls, refine
      atomic compare-and-swap on the current assignments. */
  lemma {:induction false} RunsRefine(m: Machine, es: seq<Event>)
    requires Tracked(m)
    ensures Legal(View(m.fab.ledger), Effects(m, es))
    ensures View(Run(m, es).fab.ledger) == Play(View(m.fab.ledger), Effects(m, es))
    decreases |es|
  {
    hide Next, Tracked, View, Effect;
    if es != [] {
      var n := Next(m, es[0]);
      StepTracked(m, es[0]);
      StepRefines(m, es[0]);
      RunsRefine(n, es[1..]);
      PlayConcat(View(m.fab.ledger), Effect(m, es[0]), Effects(n, es[1..]));
    }
  }

  /** In every run of every process, however it was loaded. */
  lemma RunsRefineCompareAndSwap(f: Fabric, disk: Option<Snapshot>, checkpointing: bool, es: seq<Event>)
    requires IndexExact(f.ledger)
    ensures var m := Start(f, disk, checkpointing);
            && Legal(View(f.ledger), Effects(m, es))
            && View(Run(m, es).fab.ledger) == Play(View(f.ledger), Effects(m, es))
  {
    hide Run, Effects, View, Legal, Play, Tracked, Invariant;
    StartIsInvariant(f, disk, checkpointing, SlotKey(0, 0));
    RunsRefine(Start(f, disk, checkpointing), es);
  }

  // ----- where compare-and-swap stops ------------------------------------------------

  lemma RivalAfterCommit(m: Machine, t: nat, u: nat, now: int)
    requires Tracked(m) && t != u && Commits(m, t, true) && At(m, u, ToVerify)
    requires SameSource(CommitOf(m, t), CommitOf(m, u))
    ensures var n := VerifyStep(m, t, true, now);
            && Tracked(n)
            && At(n, u, ToVerify)
            && n.procs[u] == m.procs[u]
            && n.log == m.log + [CommitOf(m, t)]
            && (Commits(n, u, true) <==> KeyOf(m.procs[t].attempt.next) == KeyOf(m.procs[u].attempt.source.value))
  {
    var a := m.procs[t].attempt;
    var n := VerifyStep(m, t, true, now);
    hide CurrentOf, HasSlot, CommitSlots, Extend, AddFenced, KeyOf, VerifyStep;
    GuardIsExact(m, t);
    CommitEffect(m, t, now);
    CommitTracked(m, t, now);
    GuardIsExact(n, u);
    CommitCurrent(m.fab.ledger, a, a.slot);
    ActivatedKey(a);
  }

  /** Two attempts stand before their verification with one captured source, and the first commits.
      The second commits as well if and only if the first was given the very key of that source. */
  lemma RivalCommitsIff(m: Machine, t: nat, u: nat, now: int)
    requires Tracked(m) && t != u && Commits(m, t, true) && At(m, u, ToVerify)
    requires SameSource(CommitOf(m, t), CommitOf(m, u))
    ensures var n := Run(m, [VerifyReply(t, true, now), VerifyReply(u, true, now)]);
            var reused := KeyOf(m.procs[t].attempt.next) == KeyOf(m.procs[u].attempt.source.value);
            && u in n.procs
            && n.procs[u].pc == Ended(if reused then Completed else Superseded)
            && |n.log| == |m.log| + (if reused then 2 else 1)
            && (reused ==> SameSource(n.log[|m.log|], n.log[|m.log| + 1]))
  {
    hide Run, VerifyStep, Supersedes, Tracked, Extend, AddFenced, CommitSlots, CommitLedger, CurrentOf;
    var x := VerifyStep(m, t, true, now);
    RivalAfterCommit(m, t, u, now);
    RunTwo(m, VerifyReply(t, true, now), VerifyReply(u, true, now));
    RivalEnds(x, u, now);
    if Commits(x, u, true) {
      CommitEffect(x, u, now);
    }
  }

  lemma RivalEnds(m: Machine, t: nat, now: int)
    requires At(m, t, ToVerify)
    ensures var n := VerifyStep(m, t, true, now);
            && t in n.procs
            && n.procs[t].pc == Ended(if Commits(m, t, true) then Completed else Superseded)
            && |n.log| == |m.log| + (if Commits(m, t, true) then 1 else 0)
  {
    hide Supersedes, CommitSlots, AddFenced, Extend, CurrentOf, HasSlot;
  }

  lemma ActivatedKey(a: Attempt)
    ensures KeyOf(Activated(a)) == KeyOf(a.next)
  {
  }

  lemma RunTwo(m: Machine, e: Event, g: Event)
    ensures Run(m, [e, g]) == Next(Next(m, e), g)
  {
    hide Next;
    assert [e, g][1..] == [g] && [g][1..] == [];
    assert Run(Next(Next(m, e), g), []) == Next(Next(m, e), g);
  }

  /** Ids restart with the process: whatever was loaded, the first attempt is given the key (1, 2).
      An assignment that an earlier process committed first carries that very key. */
  lemma FirstKeyAfterRestart(s: Snapshot, f: Fabric, plan: Plan)
    requires f.ledger.minted == Boot(s).ledger.minted && Validate(f, plan).Valid?
    ensures KeyOf(Validate(f, plan).attempt.next) == Key(1, MINTED_GENERATION)
  {
    hide Candidates, BuildContext, Eligible, FirstMatch, FindService, LoadLedger, LoadWorld, InstallAll,
      MarkRevalidation;
    LoadFrame(s);
  }

  /** A commit displaces exactly what its attempt captured, unless the attempt captured an empty
      slot that has been filled since. */
  lemma DisplacedIsCapturedIff(m: Machine, t: nat)
    requires Tracked(m) && Commits(m, t, true)
    ensures var a := m.procs[t].attempt;
            var cur := CurrentOf(m.fab.ledger, a.slot);
            Expected(a) == (if cur.Some? then Some(KeyOf(cur.value)) else None) <==> a.source.Some? || cur.None?
  {
    hide Supersedes, CurrentOf, HasSlot, Tracked;
    if m.procs[t].attempt.source.Some? {
      GuardIsExact(m, t);
    }
  }

  // ----- the authority generation ----------------------------------------------------

  /** The authority generation after the first `n` commits. */
  function Level(first: u64, log: seq<Commit>, n: nat): u64
    requires n <= |log|
  {
    if n == 0 then first else log[n - 1].attempt.next.authorityGeneration
  }

  /** Every attempt asks for one more than what it found when it was validated. */
  ghost predicate Asks(first: u64, log: seq<Commit>, a: Attempt, since: nat) {
    since <= |log| && a.next.authorityGeneration == Level(first, log, since) + 1
  }

  ghost predicate Levelled(m: Machine, first: u64) {
    && m.fab.ledger.lastAuthority == Level(first, m.log, |m.log|)
    && (forall t :: t in m.procs ==> Asks(first, m.log, m.procs[t].attempt, m.procs[t].since))
    && (forall i :: 0 <= i < |m.log| ==>
        m.log[i].since <= i && Asks(first, m.log[..i], m.log[i].attempt, m.log[i].since))
  }

  lemma LevelPrefix(first: u64, log: seq<Commit>, c: Commit, n: nat)
    requires n <= |log|
    ensures Level(first, log + [c], n) == Level(first, log, n) && Level(first, log[..n], n) == Level(first, log, n)
  {
  }

  lemma CommitLevelled(m: Machine, t: nat, now: int, first: u64)
    requires Levelled(m, first) && Commits(m, t, true)
    ensures Levelled(VerifyStep(m, t, true, now), first)
  {
    hide Supersedes, CurrentOf, HasSlot, CommitSlots, VerifyStep, Extend, AddFenced;
    CommitEffect(m, t, now);
    var n := VerifyStep(m, t, true, now);
    var p := m.procs[t];
    assert Asks(first, m.log, p.attempt, p.since);
    forall u | u in n.procs ensures Asks(first, n.log, n.procs[u].attempt, n.procs[u].since) {
      assert Asks(first, m.log, m.procs[u].attempt, m.procs[u].since);
      LevelPrefix(first, m.log, CommitOf(m, t), m.procs[u].since);
    }
    forall i | 0 <= i < |n.log|
      ensures n.log[i].since <= i && Asks(first, n.log[..i], n.log[i].attempt, n.log[i].since) {
      assert n.log[..i] == m.log[..i] || i == |m.log|;
      assert n.log[..|m.log|] == m.log;
    }
  }

  lemma QuietLevelled(m: Machine, n: Machine, first: u64)
    requires Levelled(m, first) && Quiet(m, n)
    ensures Levelled(n, first)
  {
    forall u | u in n.procs ensures Asks(first, n.log, n.procs[u].attempt, n.procs[u].since) {
      assert SameWork(m.procs[u], n.procs[u]);
    }
  }

  lemma BeginLevelled(m: Machine, t: nat, plan: Plan, first: u64)
    requires Levelled(m, first)
    ensures Levelled(BeginStep(m, t, plan), first)
  {
    hide BeginStep, Validate, CurrentOf;
    BeginEffect(m, t, plan);
    if BeginStep(m, t, plan).procs != m.procs {
      ValidAttempt(m.fab, plan);
    }
  }

  lemma InitialLevelled(m: Machine, op: Op, first: u64)
    requires Levelled(m, first)
    ensures Levelled(DoStep(m, op), first)
  {
    hide PerformWorld, PerformRoutes, PerformBook, Initial, InitialAllowed;
  }

  lemma StepLevelled(m: Machine, e: Event, first: u64)
    requires Levelled(m, first)
    ensures Levelled(Next(m, e), first)
  {
    hide Levelled, BeginStep, VerifyStep, DoStep, Commits, Quiet;
    if !Loud(e) {
      QuietSteps(m, e);
      QuietLevelled(m, Next(m, e), first);
    } else {
      match e {
        case Begin(t, plan) => BeginLevelled(m, t, plan, first);
        case Do(op) => InitialLevelled(m, op, first);
        case VerifyReply(t, verified, now) =>
          if Commits(m, t, verified) {
            OnlyVerifiedCommits(m, t, verified);
            CommitLevelled(m, t, now, first);
          } else {
            VerifyWithoutCommit(m, t, verified, now);
            QuietLevelled(m, Next(m, e), first);
          }
      }
    }
  }

  lemma {:induction false} RunLevelled(m: Machine, es: seq<Event>, first: u64)
    requires Levelled(m, first)
    ensures Levelled(Run(m, es), first)
    decreases |es|
  {
    hide Next, Levelled;
    if es != [] {
      StepLevelled(m, es[0], first);
      RunLevelled(Next(m, es[0]), es[1..], first);
    }
  }

  /** No commit so far set the authority generation back. */
  ghost predicate NoDropYet(first: u64, log: seq<Commit>) {
    forall i, j :: 0 <= i <= j <= |log| ==> Level(first, log, i) <= Level(first, log, j)
  }

  lemma DropIff(m: Machine, t: nat, now: int, first: u64)
    requires Levelled(m, first) && Commits(m, t, true)
    ensures var n := VerifyStep(m, t, true, now);
            && m.procs[t].since <= |m.log|
            && (n.fab.ledger.lastAuthority < m.fab.ledger.lastAuthority <==>
                Level(first, m.log, |m.log|) >= Level(first, m.log, m.procs[t].since) + 2)
            && (NoDropYet(first, m.log) && n.fab.ledger.lastAuthority < m.fab.ledger.lastAuthority ==>
                |m.log| >= m.procs[t].since + 2)
  {
    hide VerifyStep, Supersedes, CommitSlots, AddFenced, NoDropYet;
    CommitEffect(m, t, now);
    assert Asks(first, m.log, m.procs[t].attempt, m.procs[t].since);
    if NoDropYet(first, m.log) && |m.log| == m.procs[t].since + 1 {
      OneCommitRaisesByOne(m, first, m.procs[t].since);
    }
  }

  /** In any run, a commit sets the authority generation back if and only if the commits on record
      since its attempt was validated have raised it by two or more; as long as no commit has done
      so before, that takes at least two of them. */
  lemma AuthorityDropsIff(f: Fabric, disk: Option<Snapshot>, checkpointing: bool, es: seq<Event>, t: nat, now: int)
    requires Commits(Run(Start(f, disk, checkpointing), es), t, true)
    ensures var m := Run(Start(f, disk, checkpointing), es);
            var first := f.ledger.lastAuthority;
            && m.procs[t].since <= |m.log|
            && (VerifyStep(m, t, true, now).fab.ledger.lastAuthority < m.fab.ledger.lastAuthority <==>
                Level(first, m.log, |m.log|) >= Level(first, m.log, m.procs[t].since) + 2)
            && (NoDropYet(first, m.log)
                && VerifyStep(m, t, true, now).fab.ledger.lastAuthority < m.fab.ledger.lastAuthority ==>
                |m.log| >= m.procs[t].since + 2)
  {
    hide Run, VerifyStep, Supersedes, View, CommitSlots, AddFenced, NoDropYet;
    var first := f.ledger.lastAuthority;
    assert Levelled(Start(f, disk, checkpointing), first);
    RunLevelled(Start(f, disk, checkpointing), es, first);
    DropIff(Run(Start(f, disk, checkpointing), es), t, now, first);
  }

  lemma OneCommitRaisesByOne(m: Machine, first: u64, n: nat)
    requires Levelled(m, first) && NoDropYet(first, m.log) && n < |m.log|
    ensures Level(first, m.log, n + 1) <= Level(first, m.log, n) + 1
  {
    var c := m.log[n];
    assert c.since <= n && Asks(first, m.log[..n], c.attempt, c.since);
    assert Level(first, m.log[..n], c.since) == Level(first, m.log, c.since) <= Level(first, m.log, n);
  }

  /** Attempts begin only when no other is under way. */
  predicate OneAtATime(m: Machine, es: seq<Event>)
    decreases |es|
  {
    es == [] || ((es[0].Begin? ==> Idle(m)) && OneAtATime(Next(m, es[0]), es[1..]))
  }

  predicate Idle(m: Machine) {
    forall t :: t in m.procs ==> !Live(m.procs[t])
  }

  /** At most one attempt is live, and nothing was committed since it began. */
  ghost predicate Alternating(m: Machine, first: u64) {
    && m.fab.ledger.lastAuthority == first + |m.log|
    && (forall t, u :: t in m.procs && u in m.procs && Live(m.procs[t]) && Live(m.procs[u]) ==> t == u)
    && (forall t :: t in m.procs && Live(m.procs[t]) ==>
        m.procs[t].attempt.next.authorityGeneration == m.fab.ledger.lastAuthority + 1)
  }

  lemma QuietAlternates(m: Machine, n: Machine, first: u64)
    requires Alternating(m, first) && Quiet(m, n)
    ensures Alternating(n, first)
  {
    assert forall t :: t in n.procs ==> SameWork(m.procs[t], n.procs[t]);
  }

  lemma BeginAlternates(m: Machine, t: nat, plan: Plan, first: u64)
    requires Alternating(m, first) && Idle(m)
    ensures Alternating(BeginStep(m, t, plan), first)
  {
    hide BeginStep, Validate, CurrentOf;
    BeginEffect(m, t, plan);
    if BeginStep(m, t, plan).procs != m.procs {
      ValidAttempt(m.fab, plan);
    }
  }

  lemma StepAlternates(m: Machine, e: Event, first: u64)
    requires Alternating(m, first) && (e.Begin? ==> Idle(m))
    ensures Alternating(Next(m, e), first)
  {
    hide Quiet, Idle, Commits, BeginStep, VerifyStep, DoStep;
    if !Loud(e) {
      QuietSteps(m, e);
      QuietAlternates(m, Next(m, e), first);
    } else {
      match e {
        case Begin(t, plan) => BeginAlternates(m, t, plan, first);
        case Do(op) => InitialAlternates(m, op);
        case VerifyReply(t, verified, now) =>
          if Commits(m, t, verified) {
            OnlyVerifiedCommits(m, t, verified);
            CommitAlternates(m, t, now, first);
          } else {
            VerifyWithoutCommit(m, t, verified, now);
            QuietAlternates(m, Next(m, e), first);
          }
      }
    }
  }

  lemma InitialAlternates(m: Machine, op: Op)
    ensures DoStep(m, op).fab.ledger.lastAuthority == m.fab.ledger.lastAuthority
    ensures DoStep(m, op).procs == m.procs && DoStep(m, op).log == m.log
  {
    hide PerformWorld, PerformRoutes, PerformBook, Initial, InitialAllowed;
  }

  lemma CommitAlternates(m: Machine, t: nat, now: int, first: u64)
    requires Alternating(m, first) && Commits(m, t, true)
    ensures Alternating(VerifyStep(m, t, true, now), first)
  {
    hide Supersedes, CommitSlots, AddFenced, VerifyStep, Extend, CurrentOf;
    CommitEffect(m, t, now);
  }

  lemma {:induction false} RunAlternates(m: Machine, es: seq<Event>, first: u64)
    requires Alternating(m, first) && OneAtATime(m, es)
    ensures Alternating(Run(m, es), first)
    decreases |es|
  {
    hide Next, Alternating, Idle;
    if es != [] {
      StepAlternates(m, es[0], first);
      RunAlternates(Next(m, es[0]), es[1..], first);
    }
  }

  /** When attempts do not overlap, the authority generation counts the commits: it never goes back. */
  lemma AuthorityCountsCommits(f: Fabric, disk: Option<Snapshot>, checkpointing: bool, es: seq<Event>)
    requires OneAtATime(Start(f, disk, checkpointing), es)
    ensures Run(Start(f, disk, checkpointing), es).fab.ledger.lastAuthority ==
            f.ledger.lastAuthority + |Run(Start(f, disk, checkpointing), es).log|
  {
    hide Run, OneAtATime, View;
    RunAlternates(Start(f, disk, checkpointing), es, f.ledger.lastAuthority);
  }
}
