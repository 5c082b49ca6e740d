/** Commits on a slot that was never assigned: they are stored where no lookup finds them, and the
    number of them decides whether the saved record can be read. */
module Strays {
  import opened Types
  import opened Routing
  import opened Fabric
  import opened Operations
  import opened Durable
  import opened Persistence
  import opened Cutover
  import opened Saved

  // ----- active entries of a slot ----------------------------------------------------

  predicate ActiveEntry(st: SlotState, k: SlotKey) {
    st.slot == k && st.current.Some? && st.current.value.state.Active?
  }

  function One(b: bool): nat {
    if b then 1 else 0
  }

  /** How many stored slots hold an active assignment of `k`. */
  function ActiveEntries(slots: seq<SlotState>, k: SlotKey): nat {
    if slots == [] then 0 else One(ActiveEntry(slots[0], k)) + ActiveEntries(slots[1..], k)
  }

  /** How many assignments of a list are active on `k`. */
  function ActiveOn(xs: seq<Assignment>, k: SlotKey): nat {
    if xs == [] then 0 else One(xs[0].slot == k && xs[0].state.Active?) + ActiveOn(xs[1..], k)
  }

  ghost predicate NoSecondEntry(slots: seq<SlotState>) {
    forall k :: ActiveEntries(slots, k) <= 1
  }

  ghost predicate NoSecondActive(xs: seq<Assignment>) {
    forall k :: ActiveOn(xs, k) <= 1
  }

  lemma {:induction false} EntriesConcat(a: seq<SlotState>, b: seq<SlotState>, k: SlotKey)
    ensures ActiveEntries(a + b, k) == ActiveEntries(a, k) + ActiveEntries(b, k)
    decreases |a|
  {
    if a == [] {
      assert a + b == b;
    } else {
      assert (a + b)[1..] == a[1..] + b;
      EntriesConcat(a[1..], b, k);
    }
  }

  lemma {:induction false} OnConcat(a: seq<Assignment>, b: seq<Assignment>, k: SlotKey)
    ensures ActiveOn(a + b, k) == ActiveOn(a, k) + ActiveOn(b, k)
    decreases |a|
  {
    if a == [] {
      assert a + b == b;
    } else {
      assert (a + b)[1..] == a[1..] + b;
      OnConcat(a[1..], b, k);
    }
  }

  lemma {:induction false} EntryReplaced(slots: seq<SlotState>, i: nat, st: SlotState, k: SlotKey)
    requires i < |slots|
    ensures ActiveEntries(slots[i := st], k) + One(ActiveEntry(slots[i], k))
            == ActiveEntries(slots, k) + One(ActiveEntry(st, k))
    decreases i
  {
    if i == 0 {
      assert slots[i := st][1..] == slots[1..];
    } else {
      assert slots[i := st][1..] == slots[1..][i - 1 := st];
      EntryReplaced(slots[1..], i - 1, st, k);
    }
  }

  lemma {:induction false} OnlyEntry(slots: seq<SlotState>, i: nat, k: SlotKey)
    requires i <= |slots| && forall j :: 0 <= j < |slots| && j != i ==> slots[j].slot != k
    ensures ActiveEntries(slots, k) == One(i < |slots| && ActiveEntry(slots[i], k))
  {
    if slots != [] {
      if i == 0 {
        OnlyEntry(slots[1..], |slots| - 1, k);
      } else {
        OnlyEntry(slots[1..], i - 1, k);
      }
    }
  }

  // ----- what the decoder counts -----------------------------------------------------

  lemma {:induction false} NoneActive(xs: seq<Assignment>, k: SlotKey)
    ensures ActiveOn(xs, k) == 0 <==> forall i :: 0 <= i < |xs| ==> !(xs[i].slot == k && xs[i].state.Active?)
  {
    if xs != [] {
      NoneActive(xs[1..], k);
      if forall i :: 0 <= i < |xs| ==> !(xs[i].slot == k && xs[i].state.Active?) {
        forall i | 0 <= i < |xs| - 1 ensures !(xs[1..][i].slot == k && xs[1..][i].state.Active?) {
          assert xs[1..][i] == xs[i + 1];
        }
      }
    }
  }

  lemma {:induction false} AtMostOneActive(xs: seq<Assignment>)
    requires OneActivePerSlot(xs)
    ensures forall k :: ActiveOn(xs, k) <= 1
  {
    if xs != [] {
      AtMostOneActive(xs[1..]);
      forall k ensures ActiveOn(xs, k) <= 1 {
        if xs[0].slot == k && xs[0].state.Active? {
          NoneActive(xs[1..], k);
        }
      }
    }
  }

  lemma TwoActiveCount(xs: seq<Assignment>, i: nat, j: nat)
    requires i < j < |xs| && xs[i].state.Active? && xs[j].state.Active? && xs[i].slot == xs[j].slot
    ensures ActiveOn(xs, xs[i].slot) >= 2
  {
    var k := xs[i].slot;
    assert xs == xs[..j] + xs[j..];
    OnConcat(xs[..j], xs[j..], k);
    NoneActive(xs[..j], k);
    assert xs[..j][i] == xs[i];
  }

  lemma OneActiveIff(xs: seq<Assignment>)
    ensures OneActivePerSlot(xs) <==> NoSecondActive(xs)
  {
    if OneActivePerSlot(xs) {
      AtMostOneActive(xs);
    } else {
      var i, j :| 0 <= i < j < |xs| && xs[i].state.Active? && xs[j].state.Active? && xs[i].slot == xs[j].slot;
      TwoActiveCount(xs, i, j);
    }
  }

  lemma SlotCounts(st: SlotState, k: SlotKey)
    requires HistoryRetired(st) && SlotCoherent(st)
    ensures ActiveOn(SlotAssignments(st), k) == One(ActiveEntry(st, k))
  {
    NoneActive(st.history, k);
    if st.current.Some? {
      OnConcat([st.current.value], st.history, k);
    } else {
      assert SlotAssignments(st) == st.history;
    }
  }

  lemma {:induction false} ListCounts(slots: seq<SlotState>, k: SlotKey)
    requires forall i :: 0 <= i < |slots| ==> HistoryRetired(slots[i]) && SlotCoherent(slots[i])
    ensures ActiveOn(AssignmentsOf(slots), k) == ActiveEntries(slots, k)
  {
    hide HistoryRetired, SlotCoherent, ActiveEntry, SlotAssignments;
    if slots != [] {
      ListCounts(slots[1..], k);
      SlotCounts(slots[0], k);
      OnConcat(SlotAssignments(slots[0]), AssignmentsOf(slots[1..]), k);
    }
  }

  /** A state can be saved and read back if and only if no slot has two active entries. */
  lemma ReadableIffCounts(f: Fabric)
    requires FabricOk(f)
    ensures SemanticallyValid(SnapshotOf(f)) <==> NoSecondEntry(f.ledger.slots)
  {
    hide ServicesOk, SemanticallyValid, AssignmentsOf, AllRoutes, HistoryRetired, SlotCoherent, AssignmentOk,
      OneActivePerSlot;
    ReadableIffOneActive(f);
    OneActiveIff(AssignmentsOf(f.ledger.slots));
    forall i | 0 <= i < |f.ledger.slots| ensures HistoryRetired(f.ledger.slots[i]) && SlotCoherent(f.ledger.slots[i]) {
      assert SlotOk(f.world.services, f.ledger.slots[i]);
    }
    CountsAgree(f.ledger.slots);
  }

  lemma CountsAgree(slots: seq<SlotState>)
    requires forall i :: 0 <= i < |slots| ==> HistoryRetired(slots[i]) && SlotCoherent(slots[i])
    ensures NoSecondActive(AssignmentsOf(slots)) <==> NoSecondEntry(slots)
  {
    hide HistoryRetired, SlotCoherent, AssignmentsOf;
    var xs := AssignmentsOf(slots);
    forall k ensures ActiveOn(xs, k) == ActiveEntries(slots, k) {
      ListCounts(slots, k);
    }
  }

  // ----- along a run -----------------------------------------------------------------

  /** The step commits on slot `k` although the slot cannot be found. */
  predicate Blind(m: Machine, e: Event, k: SlotKey) {
    e.VerifyReply? && Commits(m, e.tid, e.verified) && m.procs[e.tid].attempt.slot == k && !HasSlot(m.fab.ledger, k)
  }

  function BlindCommits(m: Machine, es: seq<Event>, k: SlotKey): nat
    decreases |es|
  {
    if es == [] then 0 else One(Blind(m, es[0], k)) + BlindCommits(Next(m, es[0]), es[1..], k)
  }

  /** Whether the slot, as lookups see it, holds an active assignment. */
  predicate Serves(l: Ledger, k: SlotKey) {
    CurrentOf(l, k).Some? && CurrentOf(l, k).value.state.Active?
  }

  /** What is stored as active on `k`, beside what lookups find. */
  function Hidden(l: Ledger, k: SlotKey): int {
    ActiveEntries(l.slots, k) - One(Serves(l, k))
  }

  lemma CommitHides(l: Ledger, a: Attempt, k: SlotKey)
    requires IndexExact(l)
    ensures Hidden(CommitLedger(l, a), k) == Hidden(l, k) + One(!HasSlot(l, a.slot) && a.slot == k)
  {
    hide AddFenced, Retire, ActiveEntries, IndexExact, CurrentOf;
    CommitCurrent(l, a, k);
    if HasSlot(l, a.slot) {
      var i := l.index[a.slot];
      var st := l.slots[i].(current := Some(Activated(a)), history := Retire(l.slots[i], a));
      EntryReplaced(l.slots, i, st, k);
      EntryFound(l, a.slot);
    } else {
      var st := SlotState(a.slot, Some(Activated(a)), Retire(SlotState(a.slot, None, []), a));
      EntriesConcat(l.slots, [st], k);
      LoneEntry(st, k);
    }
  }

  lemma LoneEntry(st: SlotState, k: SlotKey)
    ensures ActiveEntries([st], k) == One(ActiveEntry(st, k))
  {
    assert [st][1..] == [];
  }

  lemma EntryFound(l: Ledger, k: SlotKey)
    requires IndexExact(l) && HasSlot(l, k)
    ensures l.slots[l.index[k]].slot == k && (ActiveEntry(l.slots[l.index[k]], k) <==> Serves(l, k))
  {
  }

  lemma InitialHides(l: Ledger, a: Assignment, k: SlotKey)
    requires IndexExact(l) && InitialAllowed(l, a)
    ensures Hidden(SetInitialLedger(l, a), k) == Hidden(l, k)
  {
    hide ActiveEntries, IndexExact, CurrentOf;
    InitialCurrent(l, a, k);
    if HasSlot(l, a.slot) {
      var i := l.index[a.slot];
      EntryReplaced(l.slots, i, l.slots[i].(current := Some(Initial(l, a))), k);
      EntryFound(l, a.slot);
    } else {
      var st := SlotState(a.slot, Some(Initial(l, a)), []);
      EntriesConcat(l.slots, [st], k);
      LoneEntry(st, k);
    }
  }

  lemma SameHidden(l: Ledger, n: Ledger, k: SlotKey)
    requires l.slots == n.slots && l.index == n.index
    ensures Hidden(l, k) == Hidden(n, k)
  {
    SameCurrent(l, n, k);
  }

  lemma StepHides(m: Machine, e: Event, k: SlotKey)
    requires IndexExact(m.fab.ledger)
    ensures Hidden(Next(m, e).fab.ledger, k) == Hidden(m.fab.ledger, k) + One(Blind(m, e, k))
  {
    hide Hidden, BeginStep, VerifyStep, DoStep, Commits, SameWork, IndexExact, HasSlot;
    if !Loud(e) {
      QuietSteps(m, e);
      SameHidden(m.fab.ledger, Next(m, e).fab.ledger, k);
    } else {
      match e {
        case Begin(t, plan) =>
          BeginEffect(m, t, plan);
          SameHidden(m.fab.ledger, Next(m, e).fab.ledger, k);
        case Do(op) => InitialStepHides(m, op, k);
        case VerifyReply(t, verified, now) =>
          if Commits(m, t, verified) {
            CommitStepHides(m, t, verified, now, k);
          } else {
            VerifyWithoutCommit(m, t, verified, now);
            SameHidden(m.fab.ledger, Next(m, e).fab.ledger, k);
          }
      }
    }
  }

  lemma InitialStepHides(m: Machine, op: Op, k: SlotKey)
    requires IndexExact(m.fab.ledger) && op.SetInitial?
    ensures Hidden(DoStep(m, op).fab.ledger, k) == Hidden(m.fab.ledger, k)
  {
    hide Hidden, SetInitialLedger, PerformWorld, PerformRoutes, PerformBook, IndexExact, InitialAllowed;
    if InitialAllowed(m.fab.ledger, op.assignment) {
      InitialHides(m.fab.ledger, op.assignment, k);
    }
  }

  lemma CommitStepHides(m: Machine, t: nat, verified: bool, now: int, k: SlotKey)
    requires IndexExact(m.fab.ledger) && Commits(m, t, verified)
    ensures Hidden(VerifyStep(m, t, verified, now).fab.ledger, k) ==
            Hidden(m.fab.ledger, k) + One(Blind(m, VerifyReply(t, verified, now), k))
  {
    hide Hidden, VerifyStep, CommitLedger, Supersedes, IndexExact, HasSlot;
    CommitEffect(m, t, now);
    CommitHides(m.fab.ledger, m.procs[t].attempt, k);
  }

  ghost predicate ProperRun(m: Machine, es: seq<Event>)
    decreases |es|
  {
    es == [] || (Proper(m.fab, es[0]) && ProperRun(Next(m, es[0]), es[1..]))
  }

  lemma {:induction false} RunHides(m: Machine, es: seq<Event>, k: SlotKey)
    requires FabricOk(m.fab) && AttemptsOk(m) && ProperRun(m, es)
    ensures FabricOk(Run(m, es).fab) && AttemptsOk(Run(m, es))
    ensures Hidden(Run(m, es).fab.ledger, k) == Hidden(m.fab.ledger, k) + BlindCommits(m, es, k)
    decreases |es|
  {
    hide Next, AttemptsOk, Hidden, Blind, Proper, ServicesOk, TxnOk, SlotOk;
    if es != [] {
      StepHides(m, es[0], k);
      ProperStepKeeps(m, es[0]);
      RunHides(Next(m, es[0]), es[1..], k);
    }
  }

  lemma NothingHidden(l: Ledger, k: SlotKey)
    requires IndexExact(l) && AllIndexed(l)
    ensures Hidden(l, k) == 0
  {
    forall j | 0 <= j < |l.slots| && !(HasSlot(l, k) && j == l.index[k]) ensures l.slots[j].slot != k {
      assert SlotIndexed(l, j);
    }
    if HasSlot(l, k) {
      EntryFound(l, k);
      OnlyEntry(l.slots, l.index[k], k);
    } else {
      OnlyEntry(l.slots, |l.slots|, k);
    }
  }

  /** No slot was committed blindly twice, or once and then given an assignment that serves. */
  ghost predicate NotBlindTwice(m: Machine, es: seq<Event>) {
    forall k :: BlindCommits(m, es, k) + One(Serves(Run(m, es).fab.ledger, k)) <= 1
  }

  /** From any state in which every slot can be found, a run, with attempts on whatever slots, ends
      in a state whose record can be read back if and only if no slot was committed blindly twice, or
      once and then given an assignment that serves. */
  lemma ReadableIffNotBlindTwice(m: Machine, es: seq<Event>)
    requires ReadableMachine(m) && ProperRun(m, es)
    ensures SemanticallyValid(SnapshotOf(Run(m, es).fab)) <==> NotBlindTwice(m, es)
  {
    hide ProperRun, AttemptsOk, AllIndexed, SemanticallyValid, SnapshotOf, Next, Serves, ServicesOk, SlotOk, TxnOk,
      DiskOk;
    var slots := Run(m, es).fab.ledger.slots;
    RunHides(m, es, SlotKey(0, 0));
    ReadableIffCounts(Run(m, es).fab);
    forall k ensures ActiveEntries(slots, k) == BlindCommits(m, es, k) + One(Serves(Run(m, es).fab.ledger, k)) {
      StoredActive(m, es, k);
    }
  }

  lemma StoredActive(m: Machine, es: seq<Event>, k: SlotKey)
    requires ReadableMachine(m) && ProperRun(m, es)
    ensures var l := Run(m, es).fab.ledger; ActiveEntries(l.slots, k) == BlindCommits(m, es, k) + One(Serves(l, k))
  {
    hide Run, ProperRun, AttemptsOk, AllIndexed, ActiveEntries, BlindCommits, Serves, ServicesOk, SlotOk, TxnOk, DiskOk;
    RunHides(m, es, k);
    NothingHidden(m.fab.ledger, k);
  }

  // ----- nobody is served ------------------------------------------------------------

  /** The slot is given its initial assignment. */
  predicate Assigns(e: Event, k: SlotKey) {
    e.Do? && e.op.SetInitial? && e.op.assignment.slot == k
  }

  lemma StepStaysHidden(m: Machine, e: Event, k: SlotKey)
    requires k !in m.fab.ledger.index && !Assigns(e, k)
    ensures k !in Next(m, e).fab.ledger.index
  {
    hide BeginStep, VerifyStep, DoStep, SameWork;
    if !Loud(e) {
      QuietSteps(m, e);
    } else {
      match e {
        case Begin(t, plan) => BeginEffect(m, t, plan);
        case Do(op) => InitialIndexes(m, op);
        case VerifyReply(t, verified, now) => VerifyIndexes(m, t, verified, now);
      }
    }
  }

  lemma InitialIndexes(m: Machine, op: Op)
    requires op.SetInitial?
    ensures DoStep(m, op).fab.ledger.index.Keys <= m.fab.ledger.index.Keys + {op.assignment.slot}
  {
    hide PerformWorld, PerformRoutes, PerformBook, InitialAllowed, Initial;
  }

  lemma VerifyIndexes(m: Machine, t: nat, verified: bool, now: int)
    ensures VerifyStep(m, t, verified, now).fab.ledger.index == m.fab.ledger.index
  {
    hide CommitSlots, AddFenced, Supersedes;
  }

  /** A slot without an index entry is found, and served, only once it is given an initial assignment:
      however many attempts complete on it before, the gate refuses everything. */
  lemma {:induction false} UnassignedNeverServes(m: Machine, es: seq<Event>, auth: Authorization)
    requires auth.slot !in m.fab.ledger.index && forall i :: 0 <= i < |es| ==> !Assigns(es[i], auth.slot)
    ensures auth.slot !in Run(m, es).fab.ledger.index && !Accepts(Run(m, es).fab, auth)
    decreases |es|
  {
    hide Next, Assigns;
    if es != [] {
      StepStaysHidden(m, es[0], auth.slot);
      UnassignedNeverServes(Next(m, es[0]), es[1..], auth);
    }
  }
}
