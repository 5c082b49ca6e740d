/** Saving and loading: what a snapshot records, what a restarted coordinator rebuilds from it,
    and why an interrupted cutover comes back closed. */
module Durable {
  import opened Types
  import opened Domains
  import opened Routing
  import opened Fabric
  import Evidence

  // ----- save ------------------------------------------------------------------------

  function SlotAssignments(st: SlotState): seq<Assignment> {
    (if st.current.Some? then [st.current.value] else []) + st.history
  }

  function AssignmentsOf(slots: seq<SlotState>): seq<Assignment> {
    if slots == [] then [] else SlotAssignments(slots[0]) + AssignmentsOf(slots[1..])
  }

  function SnapshotOf(f: Fabric): Snapshot {
    Snapshot(2, f.ledger.epoch, f.world.policyGen, f.ledger.lastAuthority, f.world.services,
             AssignmentsOf(f.ledger.slots), f.world.domains.domains, f.world.domains.memberships,
             Evidence.EventsOf(f.world.evidence.events), AllRoutes(f.routes), f.ledger.fenced,
             f.txn.has, f.txn.milestone, f.txn.pending, f.txn.source, f.txn.route)
  }

  // ----- load ------------------------------------------------------------------------

  /** Finds the slot of an assignment, or opens it. */
  function Opened(l: Ledger, k: SlotKey): (r: Ledger)
    ensures HasSlot(r, k)
  {
    if HasSlot(l, k) then l
    else l.(slots := l.slots + [SlotState(k, None, [])], index := l.index[k := |l.slots|])
  }

  function Received(st: SlotState, a: Assignment): SlotState {
    if a.state.Active? then st.(current := Some(a)) else st.(history := st.history + [a])
  }

  function LoadAssignment(l: Ledger, a: Assignment): Ledger {
    var o := Opened(l, a.slot);
    o.(slots := o.slots[o.index[a.slot] := Received(o.slots[o.index[a.slot]], a)])
  }

  function LoadAssignments(l: Ledger, xs: seq<Assignment>): Ledger
    decreases |xs|
  {
    if xs == [] then l else LoadAssignments(LoadAssignment(l, xs[0]), xs[1..])
  }

  function DeclareAll(ds: seq<DomainDecl>, xs: seq<DomainDecl>): seq<DomainDecl>
    decreases |xs|
  {
    if xs == [] then ds else DeclareAll(if xs[0].id == 0 then ds else Declare(ds, xs[0]), xs[1..])
  }

  function SetMembers(ms: seq<Membership>, xs: seq<Membership>): seq<Membership>
    decreases |xs|
  {
    if xs == [] then ms else SetMembers(SetMember(ms, xs[0]), xs[1..])
  }

  function InstallAll(rs: Routes, xs: seq<RouteEntry>): Routes
    decreases |xs|
  {
    if xs == [] then rs else InstallAll(Install(rs, xs[0]), xs[1..])
  }

  predicate Interrupted(t: Txn) {
    t.has && MilestoneRank(t.milestone) < MilestoneRank(VerificationComplete)
  }

  /** Reconciliation of one slot after an interrupted cutover. */
  function Reconciled(st: SlotState, fenced: seq<u64>, t: Txn): SlotState {
    if Interrupted(t) && st.current.Some? && st.current.value.state.Active?
       && (st.current.value.workerBoot in fenced || t.pending.Some?)
    then st.(current := Some(st.current.value.(state := NeedsRevalidation)))
    else st
  }

  function ReconcileAll(slots: seq<SlotState>, fenced: seq<u64>, t: Txn): (r: seq<SlotState>)
    ensures |r| == |slots| && forall i :: 0 <= i < |slots| ==> r[i] == Reconciled(slots[i], fenced, t)
  {
    if slots == [] then [] else [Reconciled(slots[0], fenced, t)] + ReconcileAll(slots[1..], fenced, t)
  }

  function TxnOf(s: Snapshot): Txn {
    Txn(s.hasTxn, s.txnMilestone, s.pendingAssignment, s.sourceAssignment, s.pendingRoute)
  }

  function LoadLedger(s: Snapshot): Ledger {
    var base := LoadAssignments(Ledger([], map[], s.fencedBoots, s.epoch, s.lastAuthorityGen, 0), s.assignments);
    base.(slots := ReconcileAll(base.slots, s.fencedBoots, TxnOf(s)))
  }

  function LoadWorld(s: Snapshot): World {
    World(s.services, [], map[], map[], Evidence.PublishAll(Evidence.EMPTY_STORE, s.evidence),
          Registry(DeclareAll([], s.domains), SetMembers([], s.memberships)), {}, 0, s.policyGeneration, 0)
  }

  /** `load` into a newly constructed fabric. */
  function Load(s: Snapshot): Fabric {
    Fabric(LoadLedger(s), LoadWorld(s), MarkRevalidation(InstallAll([], s.routes)), TxnOf(s), VerificationComplete, [],
           EMPTY_BOOK)
  }

  /** A restart: load, then advance the epoch. */
  function Boot(s: Snapshot): Fabric {
    WithEpoch(Load(s), (s.epoch.value + 1) % U64_LIMIT)
  }

  // ----- what the ledger keeps -------------------------------------------------------

  ghost predicate IndexExact(l: Ledger) {
    forall k :: k in l.index ==> l.index[k] < |l.slots| && l.slots[l.index[k]].slot == k
  }

  lemma LoadAssignmentFrame(l: Ledger, a: Assignment)
    ensures LoadAssignment(l, a).fenced == l.fenced && LoadAssignment(l, a).epoch == l.epoch
    ensures LoadAssignment(l, a).minted == l.minted && LoadAssignment(l, a).lastAuthority == l.lastAuthority
    ensures IndexExact(l) ==> IndexExact(LoadAssignment(l, a))
  {
  }

  lemma {:induction false} LoadAssignmentsFrame(l: Ledger, xs: seq<Assignment>)
    ensures var r := LoadAssignments(l, xs);
            && r.fenced == l.fenced && r.epoch == l.epoch && r.minted == l.minted && r.lastAuthority == l.lastAuthority
            && (IndexExact(l) ==> IndexExact(r))
    decreases |xs|
  {
    if xs != [] {
      LoadAssignmentFrame(l, xs[0]);
      LoadAssignmentsFrame(LoadAssignment(l, xs[0]), xs[1..]);
    }
  }

  lemma LoadFrame(s: Snapshot)
    ensures var l := LoadLedger(s);
            l.fenced == s.fencedBoots && l.epoch == s.epoch && l.minted == 0 && l.lastAuthority == s.lastAuthorityGen
              && IndexExact(l)
  {
    LoadAssignmentsFrame(Ledger([], map[], s.fencedBoots, s.epoch, s.lastAuthorityGen, 0), s.assignments);
  }

  // ----- fail closed -----------------------------------------------------------------

  /** A record of a cutover that was under way when it was written. */
  ghost predicate RecordsCutover(s: Snapshot) {
    s.hasTxn && MilestoneRank(s.txnMilestone) < MilestoneRank(VerificationComplete) && s.pendingAssignment.Some?
  }

  /** The last active entry of the list for a slot. */
  function LastActive(xs: seq<Assignment>, k: SlotKey): (r: Option<Assignment>)
    ensures r.Some? ==> r.value in xs && r.value.slot == k && r.value.state.Active?
    ensures r.None? ==> forall x :: x in xs && x.slot == k ==> !x.state.Active?
  {
    if xs == [] then None
    else if xs[|xs| - 1].slot == k && xs[|xs| - 1].state.Active? then Some(xs[|xs| - 1])
    else
      assert xs == xs[..|xs| - 1] + [xs[|xs| - 1]];
      LastActive(xs[..|xs| - 1], k)
  }

  function Demoted(a: Assignment, fenced: seq<u64>, t: Txn): Assignment {
    if Interrupted(t) && (a.workerBoot in fenced || t.pending.Some?) then a.(state := NeedsRevalidation) else a
  }

  lemma LoadedOne(l: Ledger, a: Assignment, k: SlotKey)
    requires IndexExact(l)
    ensures CurrentOf(LoadAssignment(l, a), k) == if a.slot == k && a.state.Active? then Some(a) else CurrentOf(l, k)
  {
  }

  lemma {:induction false} LoadedAll(l: Ledger, xs: seq<Assignment>, k: SlotKey)
    requires IndexExact(l)
    ensures CurrentOf(LoadAssignments(l, xs), k) ==
            if LastActive(xs, k).Some? then LastActive(xs, k) else CurrentOf(l, k)
    decreases |xs|
  {
    hide LoadAssignment, CurrentOf, IndexExact;
    if xs != [] {
      var init, x := xs[..|xs| - 1], xs[|xs| - 1];
      assert xs == init + [x] && [x][1..] == [];
      LoadAssignmentsConcat(l, init, [x]);
      LoadAssignmentsFrame(l, init);
      LoadedAll(l, init, k);
      var m := LoadAssignments(l, init);
      assert LoadAssignments(LoadAssignment(m, x), []) == LoadAssignment(m, x);
      LoadedOne(m, x, k);
    }
  }

  /** Who is current after loading: on each slot the last active entry that the record lists for it,
      demoted if a cutover was interrupted and it was fenced or about to be replaced. */
  lemma LoadedCurrent(s: Snapshot, k: SlotKey)
    ensures var last := LastActive(s.assignments, k);
            CurrentOf(Load(s).ledger, k) ==
              if last.Some? then Some(Demoted(last.value, s.fencedBoots, TxnOf(s))) else None
  {
    hide LoadAssignments, LastActive;
    var start := Ledger([], map[], s.fencedBoots, s.epoch, s.lastAuthorityGen, 0);
    LoadedAll(start, s.assignments, k);
    LoadAssignmentsFrame(start, s.assignments);
    LoadedAreActive(start, s.assignments);
  }

  ghost predicate CurrentsActive(slots: seq<SlotState>) {
    forall i :: 0 <= i < |slots| && slots[i].current.Some? ==> slots[i].current.value.state.Active?
  }

  lemma {:induction false} LoadedAreActive(l: Ledger, xs: seq<Assignment>)
    requires CurrentsActive(l.slots)
    ensures CurrentsActive(LoadAssignments(l, xs).slots)
    decreases |xs|
  {
    if xs != [] {
      LoadedAreActive(LoadAssignment(l, xs[0]), xs[1..]);
    }
  }

  /** Loading the record of an interrupted cutover leaves nothing active: what is current on a slot
      is the last active entry of the record for that slot, needing revalidation, never the pending
      replacement; and the gate refuses every authorization, before and after the epoch advances. */
  lemma InterruptedCutoverLoadsClosed(s: Snapshot, auth: Authorization, k: SlotKey)
    requires RecordsCutover(s)
    ensures var last := LastActive(s.assignments, k);
            CurrentOf(Load(s).ledger, k) == if last.Some? then Some(last.value.(state := NeedsRevalidation)) else None
    ensures !Accepts(Load(s), auth) && !Accepts(Boot(s), auth)
  {
    hide LoadLedger, LoadWorld, InstallAll, MarkRevalidation, RouteBlocks, CurrentOf, LastActive;
    LoadedCurrent(s, k);
    LoadedCurrent(s, auth.slot);
    SameCurrent(Load(s).ledger, Boot(s).ledger, auth.slot);
  }

  lemma SameCurrent(l: Ledger, n: Ledger, k: SlotKey)
    requires l.slots == n.slots && l.index == n.index
    ensures CurrentOf(l, k) == CurrentOf(n, k)
  {
  }

  // ----- who is listed for a slot ----------------------------------------------------

  /** The slot is visible, its retired assignments are inactive and no other entry names it. */
  ghost predicate Orderly(l: Ledger, k: SlotKey) {
    && HasSlot(l, k) && HistoryRetired(l.slots[l.index[k]])
    && (l.slots[l.index[k]].current.Some? ==> l.slots[l.index[k]].current.value.slot == k)
    && forall i :: 0 <= i < |l.slots| && i != l.index[k] ==> NeverNames(l.slots[i], k)
  }

  ghost predicate NeverNames(st: SlotState, k: SlotKey) {
    forall x :: x in SlotAssignments(st) ==> x.slot != k
  }

  lemma {:induction false} LastActiveConcat(xs: seq<Assignment>, ys: seq<Assignment>, k: SlotKey)
    ensures LastActive(xs + ys, k) == if LastActive(ys, k).Some? then LastActive(ys, k) else LastActive(xs, k)
    decreases |ys|
  {
    if ys == [] {
      assert xs + ys == xs;
    } else {
      var n := |ys| - 1;
      assert (xs + ys)[..|xs| + n] == xs + ys[..n];
      LastActiveConcat(xs, ys[..n], k);
    }
  }

  lemma {:induction false} NobodyListed(slots: seq<SlotState>, k: SlotKey)
    requires forall i :: 0 <= i < |slots| ==> NeverNames(slots[i], k)
    ensures LastActive(AssignmentsOf(slots), k).None?
  {
    hide SlotAssignments, LastActive;
    if slots != [] {
      NobodyListed(slots[1..], k);
      LastActiveConcat(SlotAssignments(slots[0]), AssignmentsOf(slots[1..]), k);
      assert NeverNames(slots[0], k);
    }
  }

  lemma ListedSlot(st: SlotState, k: SlotKey)
    requires HistoryRetired(st) && (st.current.Some? ==> st.current.value.slot == k)
    ensures LastActive(SlotAssignments(st), k) ==
            if st.current.Some? && st.current.value.state.Active? then st.current else None
  {
    hide LastActive;
    var xs := SlotAssignments(st);
    var last := LastActive(xs, k);
    if st.current.Some? && st.current.value.state.Active? {
      assert xs[0] == st.current.value && xs[0] in xs;
    }
  }

  lemma {:induction false} ListedFor(slots: seq<SlotState>, i: nat, k: SlotKey)
    requires i < |slots| && HistoryRetired(slots[i]) && (slots[i].current.Some? ==> slots[i].current.value.slot == k)
    requires forall j :: 0 <= j < |slots| && j != i ==> NeverNames(slots[j], k)
    ensures LastActive(AssignmentsOf(slots), k) ==
            if slots[i].current.Some? && slots[i].current.value.state.Active? then slots[i].current else None
  {
    hide SlotAssignments, LastActive, HistoryRetired, NeverNames;
    LastActiveConcat(SlotAssignments(slots[0]), AssignmentsOf(slots[1..]), k);
    if i == 0 {
      NobodyListed(slots[1..], k);
      ListedSlot(slots[0], k);
    } else {
      ListedFor(slots[1..], i - 1, k);
      assert NeverNames(slots[0], k);
      NobodyInSlot(slots[0], k);
    }
  }

  lemma NobodyInSlot(st: SlotState, k: SlotKey)
    requires NeverNames(st, k)
    ensures LastActive(SlotAssignments(st), k).None?
  {
    hide SlotAssignments, LastActive;
  }

  /** What a save lists as active for an orderly slot is its current assignment, if that is active. */
  lemma OrderlyListed(l: Ledger, k: SlotKey)
    requires Orderly(l, k)
    ensures LastActive(AssignmentsOf(l.slots), k) == ActiveOnly(CurrentOf(l, k))
  {
    ListedFor(l.slots, l.index[k], k);
  }

  function ActiveOnly(a: Option<Assignment>): Option<Assignment> {
    if a.Some? && a.value.state.Active? then a else None
  }

  // ----- what a save and load restores -----------------------------------------------

  ghost predicate HistoryRetired(st: SlotState) {
    forall a :: a in st.history ==> !a.state.Active?
  }

  /** Every assignment of a slot names that slot. */
  ghost predicate SlotCoherent(st: SlotState) {
    (st.current.Some? ==> st.current.value.slot == st.slot) && forall a :: a in st.history ==> a.slot == st.slot
  }

  ghost predicate DistinctSlots(slots: seq<SlotState>) {
    forall i, j :: 0 <= i < j < |slots| ==> slots[i].slot != slots[j].slot
  }

  ghost predicate Tidy(slots: seq<SlotState>) {
    DistinctSlots(slots) && forall i :: 0 <= i < |slots| ==> HistoryRetired(slots[i]) && SlotCoherent(slots[i])
  }

  /** A slot as its assignments rebuild it: an inactive current assignment becomes history. */
  function Rebuilt(st: SlotState): (r: SlotState)
    ensures r.slot == st.slot
  {
    if st.current.Some? && !st.current.value.state.Active?
    then SlotState(st.slot, None, [st.current.value] + st.history)
    else st
  }

  /** Slots without a single assignment leave no trace. */
  function RebuiltAll(slots: seq<SlotState>): seq<SlotState> {
    if slots == [] then []
    else RebuiltAll(slots[..|slots| - 1]) +
         (if SlotAssignments(slots[|slots| - 1]) == [] then [] else [Rebuilt(slots[|slots| - 1])])
  }

  lemma {:induction false} AssignmentsOfSnoc(slots: seq<SlotState>, st: SlotState)
    ensures AssignmentsOf(slots + [st]) == AssignmentsOf(slots) + SlotAssignments(st)
  {
    if slots == [] {
      assert slots + [st] == [st] && [st][1..] == [];
      assert AssignmentsOf([st]) == SlotAssignments(st) + AssignmentsOf([]);
    } else {
      assert (slots + [st])[0] == slots[0] && (slots + [st])[1..] == slots[1..] + [st];
      AssignmentsOfSnoc(slots[1..], st);
    }
  }

  lemma {:induction false} LoadAssignmentsConcat(l: Ledger, xs: seq<Assignment>, ys: seq<Assignment>)
    ensures LoadAssignments(l, xs + ys) == LoadAssignments(LoadAssignments(l, xs), ys)
    decreases |xs|
  {
    if xs == [] {
      assert xs + ys == ys;
    } else {
      assert (xs + ys)[0] == xs[0] && (xs + ys)[1..] == xs[1..] + ys;
      LoadAssignmentsConcat(LoadAssignment(l, xs[0]), xs[1..], ys);
    }
  }

  /** Loading retired assignments of the last slot extends its history. */
  lemma {:induction false} LoadHistory(l: Ledger, xs: seq<Assignment>, k: SlotKey)
    requires IndexExact(l) && k in l.index
    requires forall a :: a in xs ==> a.slot == k && !a.state.Active?
    ensures var i := l.index[k];
            LoadAssignments(l, xs) == l.(slots := l.slots[i := l.slots[i].(history := l.slots[i].history + xs)])
    decreases |xs|
  {
    var i := l.index[k];
    if xs == [] {
      assert l.slots[i].history + xs == l.slots[i].history;
      assert l.slots[i := l.slots[i]] == l.slots;
    } else {
      var m := LoadAssignment(l, xs[0]);
      LoadAssignmentFrame(l, xs[0]);
      LoadHistory(m, xs[1..], k);
      assert l.slots[i].history + [xs[0]] + xs[1..] == l.slots[i].history + xs;
      assert m.slots[i := l.slots[i].(history := l.slots[i].history + xs)]
             == l.slots[i := l.slots[i].(history := l.slots[i].history + xs)];
    }
  }

  /** Loading all assignments of a new slot appends the rebuilt slot. */
  lemma LoadSlot(l: Ledger, st: SlotState)
    requires IndexExact(l) && st.slot !in l.index && HistoryRetired(st) && SlotCoherent(st)
    requires SlotAssignments(st) != []
    ensures LoadAssignments(l, SlotAssignments(st)) ==
            l.(slots := l.slots + [Rebuilt(st)], index := l.index[st.slot := |l.slots|])
  {
    hide LoadAssignments, LoadAssignment;
    var xs := SlotAssignments(st);
    var n := |l.slots|;
    var first := Received(SlotState(st.slot, None, []), xs[0]);
    LoadNewSlot(l, xs[0]);
    var m := l.(slots := l.slots + [first], index := l.index[st.slot := n]);
    assert LoadAssignment(l, xs[0]) == m;
    LoadFirst(l, xs);
    LoadHistory(m, xs[1..], st.slot);
    FirstOfSlot(st);
    assert m.slots[n := Rebuilt(st)] == l.slots + [Rebuilt(st)];
  }

  lemma LoadNewSlot(l: Ledger, a: Assignment)
    requires a.slot !in l.index
    ensures LoadAssignment(l, a) ==
            l.(slots := l.slots + [Received(SlotState(a.slot, None, []), a)], index := l.index[a.slot := |l.slots|])
  {
    var st := SlotState(a.slot, None, []);
    assert (l.slots + [st])[|l.slots| := Received(st, a)] == l.slots + [Received(st, a)];
  }

  lemma FirstOfSlot(st: SlotState)
    requires HistoryRetired(st) && SlotCoherent(st) && SlotAssignments(st) != []
    ensures var xs := SlotAssignments(st);
            var first := Received(SlotState(st.slot, None, []), xs[0]);
            first.(history := first.history + xs[1..]) == Rebuilt(st)
  {
    var xs := SlotAssignments(st);
    if st.current.Some? {
      assert xs[1..] == st.history && xs[0] == st.current.value;
      assert [] + st.history == st.history;
    } else {
      assert xs == st.history && !xs[0].state.Active?;
      assert [] + [xs[0]] == [xs[0]] && [xs[0]] + xs[1..] == st.history;
    }
  }

  lemma LoadFirst(l: Ledger, xs: seq<Assignment>)
    requires xs != []
    ensures LoadAssignments(l, xs) == LoadAssignments(LoadAssignment(l, xs[0]), xs[1..])
  {
  }

  /** The ledger holds exactly the rebuilt form of `slots`, each found under its own key. */
  ghost predicate Mirrors(l: Ledger, slots: seq<SlotState>) {
    && l.slots == RebuiltAll(slots) && IndexExact(l)
    && (forall k :: k in l.index ==> exists i :: 0 <= i < |slots| && slots[i].slot == k)
    && (forall i :: 0 <= i < |slots| && SlotAssignments(slots[i]) != [] ==>
          slots[i].slot in l.index && l.slots[l.index[slots[i].slot]] == Rebuilt(slots[i]))
  }

  lemma MirrorsSnoc(l: Ledger, init: seq<SlotState>, st: SlotState)
    requires Mirrors(l, init) && DistinctSlots(init + [st])
    ensures st.slot !in l.index
    ensures SlotAssignments(st) == [] ==> Mirrors(l, init + [st])
    ensures SlotAssignments(st) != [] ==>
              Mirrors(l.(slots := l.slots + [Rebuilt(st)], index := l.index[st.slot := |l.slots|]), init + [st])
  {
    hide SlotAssignments, Rebuilt;
    var slots := init + [st];
    assert slots[..|init|] == init && slots[|init|] == st;
    forall k | k in l.index ensures k != st.slot && exists i :: 0 <= i < |slots| && slots[i].slot == k {
      var i :| 0 <= i < |init| && init[i].slot == k;
      assert slots[i].slot == k;
    }
  }

  lemma {:induction false} LoadRebuilds(l: Ledger, slots: seq<SlotState>)
    requires l.slots == [] && l.index == map[] && Tidy(slots)
    ensures Mirrors(LoadAssignments(l, AssignmentsOf(slots)), slots)
  {
    hide LoadAssignments, Mirrors, SlotAssignments, HistoryRetired, SlotCoherent;
    if slots == [] {
      MirrorsEmpty(l);
    } else {
      var n := |slots| - 1;
      var st := slots[n];
      var init := slots[..n];
      assert slots == init + [st];
      LoadRebuilds(l, init);
      AssignmentsOfSnoc(init, st);
      LoadAssignmentsConcat(l, AssignmentsOf(init), SlotAssignments(st));
      var m := LoadAssignments(l, AssignmentsOf(init));
      LoadAssignmentsFrame(l, AssignmentsOf(init));
      MirrorsSnoc(m, init, st);
      if SlotAssignments(st) != [] {
        LoadSlot(m, st);
      } else {
        LoadNothing(m);
      }
    }
  }

  lemma MirrorsEmpty(l: Ledger)
    requires l.slots == [] && l.index == map[]
    ensures Mirrors(LoadAssignments(l, AssignmentsOf([])), [])
  {
  }

  lemma LoadNothing(l: Ledger)
    ensures LoadAssignments(l, []) == l
  {
  }

  /** Saving and loading keeps every slot: an active current assignment stays current (demoted
      when a cutover was interrupted), any other becomes history, and no history is lost. */
  lemma SaveLoadRestoresSlots(f: Fabric, i: nat)
    requires Tidy(f.ledger.slots) && i < |f.ledger.slots| && SlotAssignments(f.ledger.slots[i]) != []
    ensures var l := Load(SnapshotOf(f)).ledger;
            var st := f.ledger.slots[i];
            && st.slot in l.index && l.index[st.slot] < |l.slots|
            && l.slots[l.index[st.slot]] == Reconciled(Rebuilt(st), f.ledger.fenced, f.txn)
            && l.fenced == f.ledger.fenced && l.lastAuthority == f.ledger.lastAuthority
  {
    hide LoadAssignments, AssignmentsOf, SlotAssignments, Rebuilt, Reconciled;
    var s := SnapshotOf(f);
    LoadFrame(s);
    LoadRebuilds(Ledger([], map[], s.fencedBoots, s.epoch, s.lastAuthorityGen, 0), f.ledger.slots);
  }

  /** What saving and loading keeps as it is, and what it forgets: the targets, their failures and
      numbers, the failback bookkeeping, the barrier, and the count of ids handed out. */
  lemma KeptAndForgotten(f: Fabric)
    ensures var g := Load(SnapshotOf(f));
            && g.world.services == f.world.services && g.world.policyGen == f.world.policyGen
            && g.ledger.epoch == f.ledger.epoch && g.ledger.fenced == f.ledger.fenced
            && g.ledger.lastAuthority == f.ledger.lastAuthority && g.txn == f.txn
            && g.world.targets == [] && g.world.targetIndex == map[] && g.world.byService == map[]
            && g.world.confirmedFailed == {} && g.world.receiptSeq == 0 && g.world.gatewayBoot == 0
            && g.book == EMPTY_BOOK && g.barrier == VerificationComplete && g.ledger.minted == 0
  {
    hide LoadLedger, DeclareAll, SetMembers, InstallAll, AssignmentsOf, AllRoutes, MarkRevalidation;
    LoadFrame(SnapshotOf(f));
  }

  // ----- registry and routes ---------------------------------------------------------

  ghost predicate ProperDomains(ds: seq<DomainDecl>) {
    DistinctDomains(ds) && forall i :: 0 <= i < |ds| ==> ds[i].id != 0
  }

  lemma DeclareKeepsRegistry(ds: seq<DomainDecl>, d: DomainDecl)
    requires ProperDomains(ds) && d.id != 0
    ensures ProperDomains(Declare(ds, d))
  {
    if i :| 0 <= i < |ds| && ds[i].id == d.id {
      DeclareAt(ds, d, i);
    } else {
      DeclareAt(ds, d, |ds|);
    }
  }

  lemma SetMemberKeepsRegistry(ms: seq<Membership>, m: Membership)
    requires DistinctMemberships(ms)
    ensures DistinctMemberships(SetMember(ms, m))
  {
    if i :| 0 <= i < |ms| && ms[i].target == m.target && ms[i].domain == m.domain {
      SetMemberAt(ms, m, i);
    } else {
      SetMemberAt(ms, m, |ms|);
    }
  }

  lemma {:induction false} DeclaredIsProper(ds: seq<DomainDecl>, xs: seq<DomainDecl>)
    requires ProperDomains(ds)
    ensures ProperDomains(DeclareAll(ds, xs))
    decreases |xs|
  {
    hide ProperDomains, Declare;
    if xs != [] {
      if xs[0].id != 0 {
        DeclareKeepsRegistry(ds, xs[0]);
      }
      DeclaredIsProper(if xs[0].id == 0 then ds else Declare(ds, xs[0]), xs[1..]);
    }
  }

  lemma DeclareNew(ds: seq<DomainDecl>, xs: seq<DomainDecl>)
    requires xs != [] && ProperDomains(ds + xs)
    ensures xs[0].id != 0 && Declare(ds, xs[0]) == ds + [xs[0]]
  {
    assert (ds + xs)[|ds|] == xs[0];
    assert forall i :: 0 <= i < |ds| ==> (ds + xs)[i] == ds[i];
    DeclareAt(ds, xs[0], |ds|);
  }

  lemma {:induction false} DeclaredAnew(ds: seq<DomainDecl>, xs: seq<DomainDecl>)
    requires ProperDomains(ds + xs)
    ensures DeclareAll(ds, xs) == ds + xs
    decreases |xs|
  {
    hide ProperDomains, Declare;
    if xs == [] {
      assert ds + xs == ds;
    } else {
      DeclareNew(ds, xs);
      assert (ds + [xs[0]]) + xs[1..] == ds + xs;
      DeclaredAnew(ds + [xs[0]], xs[1..]);
    }
  }

  lemma {:induction false} MembersAreDistinct(ms: seq<Membership>, xs: seq<Membership>)
    requires DistinctMemberships(ms)
    ensures DistinctMemberships(SetMembers(ms, xs))
    decreases |xs|
  {
    hide DistinctMemberships, SetMember;
    if xs != [] {
      SetMemberKeepsRegistry(ms, xs[0]);
      MembersAreDistinct(SetMember(ms, xs[0]), xs[1..]);
    }
  }

  lemma MemberNew(ms: seq<Membership>, xs: seq<Membership>)
    requires xs != [] && DistinctMemberships(ms + xs)
    ensures SetMember(ms, xs[0]) == ms + [xs[0]]
  {
    assert (ms + xs)[|ms|] == xs[0];
    assert forall i :: 0 <= i < |ms| ==> (ms + xs)[i] == ms[i];
    SetMemberAt(ms, xs[0], |ms|);
  }

  lemma {:induction false} MembersAnew(ms: seq<Membership>, xs: seq<Membership>)
    requires DistinctMemberships(ms + xs)
    ensures SetMembers(ms, xs) == ms + xs
    decreases |xs|
  {
    hide DistinctMemberships, SetMember;
    if xs == [] {
      assert ms + xs == ms;
    } else {
      MemberNew(ms, xs);
      assert (ms + [xs[0]]) + xs[1..] == ms + xs;
      MembersAnew(ms + [xs[0]], xs[1..]);
    }
  }

  /** Saving and loading restores the failure domains and memberships, in order, if and only if the
      registry has no null domain and declares nothing twice. */
  lemma RegistryRestoredIff(f: Fabric)
    ensures Load(SnapshotOf(f)).world.domains == f.world.domains <==> ValidRegistry(f.world.domains)
  {
    hide DeclareAll, SetMembers, AssignmentsOf, AllRoutes, LoadLedger, InstallAll;
    var r := f.world.domains;
    assert [] + r.domains == r.domains && [] + r.memberships == r.memberships;
    DeclaredIsProper([], r.domains);
    MembersAreDistinct([], r.memberships);
    if ValidRegistry(r) {
      DeclaredAnew([], r.domains);
      MembersAnew([], r.memberships);
    }
  }

  function Single(e: RouteEntry): SlotRoute {
    SlotRoute(e, [])
  }

  ghost predicate Fresh(rs: Routes, xs: seq<RouteEntry>) {
    && (forall i :: 0 <= i < |xs| ==> xs[i].slot.service != 0)
    && (forall i, j :: 0 <= i < j < |xs| ==> xs[i].slot != xs[j].slot)
    && (forall i, j :: 0 <= i < |rs| && 0 <= j < |xs| ==> rs[i].current.slot != xs[j].slot)
  }

  /** The entries as they are stored when each is new to the table. */
  function Singles(xs: seq<RouteEntry>): (rs: Routes)
    ensures |rs| == |xs| && forall i :: 0 <= i < |xs| ==> rs[i] == Single(xs[i])
  {
    seq(|xs|, i requires 0 <= i < |xs| => Single(xs[i]))
  }

  lemma InstalledFirst(rs: Routes, xs: seq<RouteEntry>)
    requires xs != [] && Fresh(rs, xs)
    ensures Install(rs, xs[0]) == rs + [Single(xs[0])]
  {
  }

  lemma FreshRest(rs: Routes, xs: seq<RouteEntry>)
    requires xs != [] && Fresh(rs, xs)
    ensures Fresh(rs + [Single(xs[0])], xs[1..])
  {
  }

  lemma {:induction false} InstalledAnew(rs: Routes, xs: seq<RouteEntry>)
    requires Fresh(rs, xs)
    ensures InstallAll(rs, xs) == rs + Singles(xs)
    decreases |xs|
  {
    hide Fresh, Install;
    if xs == [] {
      assert rs + Singles(xs) == rs;
    } else {
      InstalledFirst(rs, xs);
      FreshRest(rs, xs);
      InstalledAnew(rs + [Single(xs[0])], xs[1..]);
      assert (rs + [Single(xs[0])]) + Singles(xs[1..]) == rs + Singles(xs);
    }
  }

  lemma {:induction false} ListedRoutes(rs: Routes, e: RouteEntry)
    ensures e in AllRoutes(rs) <==> exists i :: 0 <= i < |rs| && rs[i].current == e && !e.state.EmptyRoute?
  {
    if rs != [] {
      ListedRoutes(rs[1..], e);
      if i :| 0 <= i < |rs| && rs[i].current == e && !e.state.EmptyRoute? {
        assert i > 0 ==> rs[1..][i - 1].current == e;
      }
      if i :| 0 <= i < |rs| - 1 && rs[1..][i].current == e && !e.state.EmptyRoute? {
        assert rs[i + 1].current == e;
      }
    }
  }

  lemma {:induction false} ListedOnce(rs: Routes)
    requires OneRoutePerSlot(rs)
    ensures var xs := AllRoutes(rs); forall i, j :: 0 <= i < j < |xs| ==> xs[i].slot != xs[j].slot
  {
    if rs != [] {
      ListedOnce(rs[1..]);
      var rest := AllRoutes(rs[1..]);
      forall j | 0 <= j < |rest| ensures rest[j].slot != rs[0].current.slot {
        ListedRoutes(rs[1..], rest[j]);
        var i :| 0 <= i < |rs| - 1 && rs[1..][i].current == rest[j];
        assert rs[i + 1] == rs[1..][i];
      }
    }
  }

  lemma SavedRoutesFresh(rs: Routes)
    requires ValidRoutes(rs)
    ensures Fresh([], AllRoutes(rs))
  {
    hide Ordered;
    ListedOnce(rs);
    var xs := AllRoutes(rs);
    forall i | 0 <= i < |xs| ensures xs[i].slot.service != 0 {
      ListedRoutes(rs, xs[i]);
      var j :| 0 <= j < |rs| && rs[j].current == xs[i];
    }
  }

  /** A route as a restart finds it. */
  function Marked(e: Option<RouteEntry>): Option<RouteEntry> {
    if e.None? then None else Some(Revalidated(Single(e.value)).current)
  }

  lemma CurrentIs(rs: Routes, i: nat)
    requires OneRoutePerSlot(rs) && i < |rs| && !rs[i].current.state.EmptyRoute?
    ensures CurrentRoute(rs, rs[i].current.slot) == Some(rs[i].current)
  {
    FindUnique(rs, i);
  }

  lemma ReinstalledRoute(was: Routes, rs: Routes, xs: seq<RouteEntry>, k: SlotKey)
    requires OneRoutePerSlot(was) && xs == AllRoutes(was) && OneRoutePerSlot(rs)
    requires |rs| == |xs| && forall i :: 0 <= i < |xs| ==> rs[i] == Revalidated(Single(xs[i]))
    ensures CurrentRoute(rs, k) == Marked(CurrentRoute(was, k))
  {
    hide AllRoutes, FindRoute;
    var cur := CurrentRoute(was, k);
    if cur.Some? {
      ListedRoutes(was, cur.value);
      var i :| 0 <= i < |xs| && xs[i] == cur.value;
      CurrentIs(rs, i);
    } else if FindRoute(rs, k).Some? {
      var i := FindRoute(rs, k).value;
      ListedRoutes(was, xs[i]);
      var j :| 0 <= j < |was| && was[j].current == xs[i] && !xs[i].state.EmptyRoute?;
      CurrentIs(was, j);
    }
  }

  lemma ReinstalledRoutes(rs: Routes, k: SlotKey)
    requires ValidRoutes(rs)
    ensures CurrentRoute(MarkRevalidation(InstallAll([], AllRoutes(rs))), k) == Marked(CurrentRoute(rs, k))
  {
    hide InstallAll, AllRoutes, Ordered, FindRoute, CurrentRoute, Marked;
    var xs := AllRoutes(rs);
    SavedRoutesFresh(rs);
    InstalledAnew([], xs);
    ReinstalledRoute(rs, MarkRevalidation(InstallAll([], xs)), xs, k);
  }

  /** Saving and loading restores the current route of every slot, awaiting revalidation if it was
      serving, and invents none. */
  lemma RoutesRestored(f: Fabric, k: SlotKey)
    requires ValidRoutes(f.routes)
    ensures CurrentRoute(Load(SnapshotOf(f)).routes, k) == Marked(CurrentRoute(f.routes, k))
  {
    hide LoadLedger, LoadWorld, InstallAll, AllRoutes, CurrentRoute, AssignmentsOf, Evidence.EventsOf, ValidRoutes,
      MarkRevalidation, Marked;
    ReinstalledRoutes(f.routes, k);
  }
}
