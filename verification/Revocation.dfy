/** Revocation is permanent, and nothing that held authority is forgotten, over whole runs of
    interleaved attempts. */
module Revocation {
  import opened Types
  import opened Fabric
  import opened Operations
  import opened Durable
  import opened Cutover
  import opened Authority
  import Requests

  // ----- revocation ------------------------------------------------------------------

  /** A boot that was ever fenced is refused in every later state. */
  lemma FencedBootStaysRefused(m: Machine, es: seq<Event>, auth: Authorization)
    requires auth.workerBoot in m.fab.ledger.fenced
    ensures !Accepts(Run(m, es).fab, auth)
  {
    hide Run, CurrentOf, RouteBlocks;
    RunGrows(m, es);
  }

  /** The current assignment of a slot changes only together with its lineage. */
  lemma StepCurrent(m: Machine, e: Event, k: SlotKey)
    requires Tracked(m) && k in m.lineage
    ensures var n := Next(m, e);
            k in n.lineage
              && (n.lineage[k] == m.lineage[k] ==> CurrentOf(n.fab.ledger, k) == CurrentOf(m.fab.ledger, k))
  {
    hide BeginStep, VerifyStep, DoStep, Tracked, CurrentOf, Commits, SameWork;
    TrackedAt(m, k);
    StepGrows(m, e);
    if !Loud(e) {
      QuietSteps(m, e);
      SameCurrent(m.fab.ledger, Next(m, e).fab.ledger, k);
    } else {
      match e {
        case Begin(t, plan) =>
          BeginEffect(m, t, plan);
          SameCurrent(m.fab.ledger, Next(m, e).fab.ledger, k);
        case Do(op) => InitialElsewhere(m, op, k);
        case VerifyReply(t, verified, now) =>
          if Commits(m, t, verified) {
            CommitMoves(m, t, verified, now, k);
          } else {
            VerifyWithoutCommit(m, t, verified, now);
            SameCurrent(m.fab.ledger, Next(m, e).fab.ledger, k);
          }
      }
    }
  }

  lemma InitialElsewhere(m: Machine, op: Op, k: SlotKey)
    requires op.SetInitial? && IndexExact(m.fab.ledger) && CurrentOf(m.fab.ledger, k).Some?
    ensures CurrentOf(DoStep(m, op).fab.ledger, k) == CurrentOf(m.fab.ledger, k)
  {
    hide PerformWorld, PerformRoutes, PerformBook, IndexExact, CurrentOf, SetInitialLedger;
    InitialCurrent(m.fab.ledger, op.assignment, k);
  }

  lemma CommitMoves(m: Machine, t: nat, verified: bool, now: int, k: SlotKey)
    requires IndexExact(m.fab.ledger) && Commits(m, t, verified) && k in m.lineage
    ensures var n := VerifyStep(m, t, verified, now);
            k in n.lineage
              && (n.lineage[k] == m.lineage[k] ==> CurrentOf(n.fab.ledger, k) == CurrentOf(m.fab.ledger, k))
  {
    hide VerifyStep, Supersedes, IndexExact, CurrentOf, HasSlot, CommitLedger;
    CommitEffect(m, t, now);
    CommitCurrent(m.fab.ledger, m.procs[t].attempt, k);
  }

  lemma {:induction false} RunCurrent(m: Machine, es: seq<Event>, k: SlotKey)
    requires Tracked(m) && k in m.lineage
    ensures var n := Run(m, es);
            k in n.lineage
              && (n.lineage[k] == m.lineage[k] ==> CurrentOf(n.fab.ledger, k) == CurrentOf(m.fab.ledger, k))
    decreases |es|
  {
    hide Next, Tracked, CurrentOf;
    if es != [] {
      var n := Next(m, es[0]);
      StepCurrent(m, es[0], k);
      StepTracked(m, es[0]);
      RunCurrent(n, es[1..], k);
      StepGrows(m, es[0]);
      RunGrows(n, es[1..]);
    }
  }

  lemma NothingMore(m: Machine)
    ensures Run(m, []) == m
  {
  }

  /** The authorization speaks for the slot's current assignment and its boot. */
  predicate SpeaksFor(f: Fabric, auth: Authorization) {
    var cur := CurrentOf(f.ledger, auth.slot);
    cur.Some? && KeyOf(cur.value) == Key(auth.assignment, auth.assignmentGeneration)
      && cur.value.workerBoot == auth.workerBoot
  }

  lemma AcceptedSpeaks(f: Fabric, auth: Authorization)
    requires Accepts(f, auth)
    ensures SpeaksFor(f, auth) && auth.workerBoot !in f.ledger.fenced
  {
  }

  /** Two places of a lineage hold one key only if the first of them is the place of the assignment
      that the process came up with, and that key has been handed out again. */
  lemma RepeatedKey(m: Machine, k: SlotKey, i: nat, j: nat)
    requires Invariant(m, k) && k in m.lineage && i < j < |m.lineage[k]| && m.lineage[k][i] == m.lineage[k][j]
    ensures i == 0 && k in m.origin && !Safe(m, k)
  {
    hide Tracked, LogOk, ProcessOk, Clash, CurrentOf;
    var h := m.lineage[k];
    var first := if k in m.origin then 1 else 0;
    assert Tail(m, k) == h[first..];
    forall x, y | first <= x < y < |h| ensures h[x] != h[y] {
      assert h[first..][x - first] != h[first..][y - first];
    }
  }

  /** An authorization whose assignment has been displaced is taken again in some later state only if
      it names the null boot and the assignment that the process came up with, and the process hands
      out that assignment's key a second time. */
  lemma DisplacedStaysRefused(m: Machine, es: seq<Event>, auth: Authorization)
    requires Invariant(m, auth.slot) && SpeaksFor(m.fab, auth)
    requires IdsLeft(Run(m, es))
    requires auth.slot in m.lineage && auth.slot in Run(m, es).lineage
    requires |m.lineage[auth.slot]| < |Run(m, es).lineage[auth.slot]|
    ensures Accepts(Run(m, es).fab, auth) ==>
              && auth.workerBoot == 0 && !Safe(m, auth.slot)
              && auth.slot in m.origin && KeyOf(m.origin[auth.slot]) == Key(auth.assignment, auth.assignmentGeneration)
  {
    hide Run, Accepts, CurrentOf, Tracked, LogOk, ProcessOk, Clash, Chain;
    var k := auth.slot;
    var n := Run(m, es);
    InvariantOverRuns(m, es, k);
    RunGrows(m, es);
    RunKeepsOrigin(m, es);
    TrackedAt(m, k);
    TrackedAt(n, k);
    if Accepts(n.fab, auth) {
      AcceptedSpeaks(n.fab, auth);
      var h, g := m.lineage[k], n.lineage[k];
      assert g[|h| - 1] == h[|h| - 1];
      RepeatedKey(n, k, |h| - 1, |g| - 1);
    }
  }

  /** Revocation is permanent: an authorization that was accepted, and whose assignment has since been
      replaced or whose boot has been fenced, is never accepted again. The only exception names the
      null boot, on a slot that came up with a key which the process hands out again. */
  lemma RevocationIsPermanent(f: Fabric, disk: Option<Snapshot>, checkpointing: bool, es: seq<Event>, more: seq<Event>,
                              rest: seq<Event>, auth: Authorization)
    requires IndexExact(f.ledger)
    requires Covered(f.ledger, es, auth.slot)
    requires IdsLeft(Run(Run(Run(Start(f, disk, checkpointing), es), more), rest))
    requires Accepts(Run(Start(f, disk, checkpointing), es).fab, auth)
    requires var m := Run(Start(f, disk, checkpointing), es);
             var n := Run(m, more);
             auth.workerBoot in n.fab.ledger.fenced
               || CurrentOf(n.fab.ledger, auth.slot) != CurrentOf(m.fab.ledger, auth.slot)
    ensures auth.workerBoot != 0 || SafeSlot(f.ledger, auth.slot) ==>
              !Accepts(Run(Run(Run(Start(f, disk, checkpointing), es), more), rest).fab, auth)
  {
    var m0 := Start(f, disk, checkpointing);
    assert m0.fab == f;
    hide Run, Start, Accepts, CurrentOf, IndexExact, Invariant, Covered;
    var m := Run(m0, es);
    StartIsInvariant(f, disk, checkpointing, auth.slot);
    RunMints(m, more);
    RunMints(Run(m, more), rest);
    InvariantOverRuns(m0, es, auth.slot);
    RunKeepsOrigin(m0, es);
    RevokedLater(m, more, rest, auth);
    StartSafe(f, disk, checkpointing, auth.slot);
  }

  lemma StartSafe(f: Fabric, disk: Option<Snapshot>, checkpointing: bool, k: SlotKey)
    ensures Safe(Start(f, disk, checkpointing), k) <==> SafeSlot(f.ledger, k)
    ensures k in Start(f, disk, checkpointing).origin <==> CurrentOf(f.ledger, k).Some?
    ensures k in Start(f, disk, checkpointing).origin ==>
            Start(f, disk, checkpointing).origin[k] == CurrentOf(f.ledger, k).value
  {
    hide View, CurrentOf;
    ViewDomain(f.ledger);
  }

  /** The same from any state of a run, with the assignment that the exception is about. */
  lemma RevokedLater(m: Machine, more: seq<Event>, rest: seq<Event>, auth: Authorization)
    requires Invariant(m, auth.slot) && Accepts(m.fab, auth)
    requires IdsLeft(Run(Run(m, more), rest))
    requires var n := Run(m, more);
             auth.workerBoot in n.fab.ledger.fenced
               || CurrentOf(n.fab.ledger, auth.slot) != CurrentOf(m.fab.ledger, auth.slot)
    ensures Accepts(Run(Run(m, more), rest).fab, auth) ==>
              && auth.workerBoot == 0 && !Safe(m, auth.slot)
              && auth.slot in m.origin && KeyOf(m.origin[auth.slot]) == Key(auth.assignment, auth.assignmentGeneration)
  {
    hide Run, Accepts, CurrentOf, OriginOk, Tracked, LogOk, ProcessOk, Clash, Chain, Tail, Safe;
    var k := auth.slot;
    var n := Run(m, more);
    AcceptedSpeaks(m.fab, auth);
    if auth.workerBoot in n.fab.ledger.fenced {
      FencedBootStaysRefused(n, rest, auth);
    } else {
      TrackedAt(m, k);
      RunCurrent(m, more, k);
      RunGrows(m, more);
      RunGrows(n, rest);
      RunConcat(m, more, rest);
      DisplacedStaysRefused(m, more + rest, auth);
    }
  }

  lemma {:induction false} RunConcat(m: Machine, es: seq<Event>, more: seq<Event>)
    ensures Run(m, es + more) == Run(Run(m, es), more)
    decreases |es|
  {
    hide Next;
    if es == [] {
      assert es + more == more;
    } else {
      assert (es + more)[1..] == es[1..] + more;
      RunConcat(Next(m, es[0]), es[1..], more);
    }
  }

  /** The exception is real in the gate: with the null boot, a displaced authorization is taken again
      if and only if the slot came up with its key, that key has been handed out again and is current,
      and the rest of the gate agrees. */
  lemma NullBootComesBackIff(f: Fabric, disk: Option<Snapshot>, checkpointing: bool, es: seq<Event>, more: seq<Event>,
                             auth: Authorization)
    requires IndexExact(f.ledger) && auth.workerBoot == 0
    requires Covered(f.ledger, es, auth.slot)
    requires IdsLeft(Run(Run(Start(f, disk, checkpointing), es), more))
    requires Accepts(Run(Start(f, disk, checkpointing), es).fab, auth)
    requires var m := Run(Start(f, disk, checkpointing), es);
             CurrentOf(Run(m, more).fab.ledger, auth.slot) != CurrentOf(m.fab.ledger, auth.slot)
    ensures var z := Run(Run(Start(f, disk, checkpointing), es), more).fab;
            var cur := CurrentOf(z.ledger, auth.slot);
            Accepts(z, auth) <==>
            && CurrentOf(f.ledger, auth.slot).Some? && !SafeSlot(f.ledger, auth.slot)
            && KeyOf(CurrentOf(f.ledger, auth.slot).value) == Key(auth.assignment, auth.assignmentGeneration)
            && cur.Some? && KeyOf(cur.value) == Key(auth.assignment, auth.assignmentGeneration)
            && cur.value.routeGeneration == auth.routeGeneration && cur.value.workerBoot == 0 && cur.value.state.Active?
            && 0 !in z.ledger.fenced && !RouteBlocks(z.routes, auth.slot) && auth.epoch == z.ledger.epoch
  {
    var m0 := Start(f, disk, checkpointing);
    var m := Run(m0, es);
    assert m0.fab == f;
    GateFields(Run(m, more).fab, auth);
    hide Run, Start, Accepts, CurrentOf, IndexExact, Invariant, Covered, RouteBlocks;
    StartIsInvariant(f, disk, checkpointing, auth.slot);
    RunMints(m, more);
    InvariantOverRuns(m0, es, auth.slot);
    RunKeepsOrigin(m0, es);
    NothingMore(Run(m, more));
    RevokedLater(m, more, [], auth);
    StartSafe(f, disk, checkpointing, auth.slot);
  }

  lemma GateFields(f: Fabric, auth: Authorization)
    ensures var cur := CurrentOf(f.ledger, auth.slot);
            Accepts(f, auth) <==>
            && cur.Some? && KeyOf(cur.value) == Key(auth.assignment, auth.assignmentGeneration)
            && cur.value.routeGeneration == auth.routeGeneration && cur.value.workerBoot == auth.workerBoot
            && cur.value.state.Active?
            && auth.workerBoot !in f.ledger.fenced && !RouteBlocks(f.routes, auth.slot) && auth.epoch == f.ledger.epoch
  {
    hide CurrentOf, RouteBlocks;
  }

  /** What a refusal says is true of the authorization. */
  lemma RefusalIsTrue(f: Fabric, auth: Authorization)
    ensures var cur := CurrentOf(f.ledger, auth.slot);
            match DispatchGate(f, auth)
            case Allowed => Accepts(f, auth)
            case NoCurrent => cur.None?
            case StaleEpoch => auth.epoch != f.ledger.epoch
            case StaleAssignment => cur.Some? && KeyOf(cur.value) != Key(auth.assignment, auth.assignmentGeneration)
            case StaleRouteGeneration => cur.Some? && cur.value.routeGeneration != auth.routeGeneration
            case RouteNotValid => RouteBlocks(f.routes, auth.slot)
            case BootNotCurrent => cur.Some? && cur.value.workerBoot != auth.workerBoot
            case BootFenced => SpeaksFor(f, auth) && auth.workerBoot in f.ledger.fenced
            case NotActive => SpeaksFor(f, auth) && !cur.value.state.Active?
  {
    hide CurrentOf, RouteBlocks;
  }

  /** No split brain: once a successor under another key or another boot has been accepted, what its
      predecessor was authorized to do is not accepted, then or ever after. */
  lemma NoSplitBrain(f: Fabric, disk: Option<Snapshot>, checkpointing: bool, es: seq<Event>, more: seq<Event>,
                     rest: seq<Event>, was: Authorization, heir: Authorization)
    requires IndexExact(f.ledger) && was.slot == heir.slot && (was.workerBoot != 0 || SafeSlot(f.ledger, was.slot))
    requires Covered(f.ledger, es, was.slot)
    requires IdsLeft(Run(Run(Run(Start(f, disk, checkpointing), es), more), rest))
    requires Accepts(Run(Start(f, disk, checkpointing), es).fab, was)
    requires Accepts(Run(Run(Start(f, disk, checkpointing), es), more).fab, heir)
    requires was.workerBoot != heir.workerBoot || was.assignment != heir.assignment
             || was.assignmentGeneration != heir.assignmentGeneration
    ensures !Accepts(Run(Run(Run(Start(f, disk, checkpointing), es), more), rest).fab, was)
  {
    hide Run, Start, Accepts, CurrentOf, IndexExact, Covered, SafeSlot;
    AcceptedSpeaks(Run(Start(f, disk, checkpointing), es).fab, was);
    AcceptedSpeaks(Run(Run(Start(f, disk, checkpointing), es), more).fab, heir);
    RevocationIsPermanent(f, disk, checkpointing, es, more, rest, was);
  }

  /** The fencing section takes back exactly the authority of the boot it replaces, on every slot and
      for good; the null boot is never fenced, and for it nothing changes at the gate. */
  lemma FencingRevokesForGood(m: Machine, t: nat, es: seq<Event>, auth: Authorization)
    requires At(m, t, ToFence) && m.procs[t].attempt.source.Some?
    ensures var n := FenceStep(m, t, true, false);
            var boot := m.procs[t].attempt.source.value.workerBoot;
            && (Accepts(n.fab, auth) <==> Accepts(m.fab, auth) && (auth.workerBoot == boot ==> boot == 0))
            && (auth.workerBoot == boot && boot != 0 ==> !Accepts(Run(n, es).fab, auth))
  {
    hide Run, RouteBlocks, CurrentOf;
    var n := FenceStep(m, t, true, false);
    SameCurrent(m.fab.ledger, n.fab.ledger, auth.slot);
    if auth.workerBoot == m.procs[t].attempt.source.value.workerBoot && auth.workerBoot != 0 {
      FencedBootStaysRefused(n, es, auth);
    }
  }

  /** What a completed attempt is worth: the gate takes the new authorization if and only if the
      slot is visible, the new boot is not fenced (it is when it was the old boot too) and no
      route of the slot awaits revalidation. */
  lemma CompletedIsServableIff(m: Machine, t: nat, now: int, auth: Authorization)
    requires IndexExact(m.fab.ledger) && Commits(m, t, true)
    requires var a := m.procs[t].attempt;
             auth.slot == a.slot && auth.epoch == m.fab.ledger.epoch
               && Key(auth.assignment, auth.assignmentGeneration) == KeyOf(a.next)
             && auth.routeGeneration == a.next.routeGeneration && auth.workerBoot == a.next.workerBoot
    ensures var a := m.procs[t].attempt;
            Accepts(VerifyStep(m, t, true, now).fab, auth) <==>
            && HasSlot(m.fab.ledger, a.slot)
            && a.next.workerBoot !in m.fab.ledger.fenced
            && (a.source.Some? && a.source.value.workerBoot != 0 ==> a.next.workerBoot != a.source.value.workerBoot)
            && !RouteBlocks(m.fab.routes, a.slot)
  {
    hide CurrentOf, HasSlot, RouteBlocks, CommitSlots, IndexExact, Supersedes;
    var a := m.procs[t].attempt;
    var n := VerifyStep(m, t, true, now).fab;
    assert n.ledger == CommitLedger(m.fab.ledger, a) && n.routes == m.fab.routes;
    CommitCurrent(m.fab.ledger, a, a.slot);
    if !HasSlot(m.fab.ledger, a.slot) {
      NotVisible(m.fab.ledger, a.slot);
    }
  }

  lemma NotVisible(l: Ledger, k: SlotKey)
    requires !HasSlot(l, k)
    ensures CurrentOf(l, k).None?
  {
  }

  // ----- results ---------------------------------------------------------------------

  /** The gate for results: the dispatch gate, and a request that is on record and uncommitted. */
  predicate ResultAllowed(f: Fabric, tracker: Requests.Tracker, auth: Authorization) {
    Accepts(f, auth) &&
    var rec := Requests.Find(tracker.records, auth.request);
    rec.Some? && !rec.value.disposition.ResponseCommitted?
  }

  /** No result of a revoked worker is taken, in any later state and whatever is on record. */
  lemma RevokedResultIsRefused(f: Fabric, disk: Option<Snapshot>, checkpointing: bool, es: seq<Event>, more: seq<Event>,
                               rest: seq<Event>,
                               auth: Authorization, tracker: Requests.Tracker)
    requires IndexExact(f.ledger) && (auth.workerBoot != 0 || SafeSlot(f.ledger, auth.slot))
    requires Covered(f.ledger, es, auth.slot)
    requires IdsLeft(Run(Run(Run(Start(f, disk, checkpointing), es), more), rest))
    requires Accepts(Run(Start(f, disk, checkpointing), es).fab, auth)
    requires var m := Run(Start(f, disk, checkpointing), es);
             var n := Run(m, more);
             auth.workerBoot in n.fab.ledger.fenced
               || CurrentOf(n.fab.ledger, auth.slot) != CurrentOf(m.fab.ledger, auth.slot)
    ensures !ResultAllowed(Run(Run(Run(Start(f, disk, checkpointing), es), more), rest).fab, tracker, auth)
  {
    hide Run, Start, Accepts, CurrentOf, IndexExact, Covered, SafeSlot;
    RevocationIsPermanent(f, disk, checkpointing, es, more, rest, auth);
  }

  /** A request is granted on the state of the assignment alone. The authorization handed out is good at
      the gate, and its result can be taken, if and only if the boot is not fenced and no route of the
      slot awaits revalidation; and since no result is recorded as committed, a result that is taken
      once is taken again for as long as that holds. */
  lemma GrantedIsGoodIff(f: Fabric, g: Fabric, d: Requests.Desk, m: Requests.Message, ms: seq<Requests.Message>)
    requires m.AuthorizeRequest? && m.current == CurrentOf(f.ledger, m.slot) && m.epoch == f.ledger.epoch
    requires Requests.Grants(d, m) && Requests.NoneCommitted(d.tracker)
    ensures var rec := Requests.Find(Requests.Handle(d, m).tracker.records, m.request);
            rec.Some? && rec.value.dispatchedAuth.Some? &&
            var auth := rec.value.dispatchedAuth.value;
            var later := Requests.HandleAll(Requests.Handle(d, m), ms).tracker;
            && (Accepts(f, auth) <==>
                m.current.value.workerBoot !in f.ledger.fenced && !RouteBlocks(f.routes, m.slot))
            && (ResultAllowed(g, later, auth) <==> Accepts(g, auth))
  {
    hide CurrentOf, RouteBlocks, Accepts, Requests.Refusable, Requests.HandleAll;
    Requests.RecordThenFind(d.tracker.records, Requests.DispatchRecord(m), m.request);
    var auth := Requests.DispatchRecord(m).dispatchedAuth.value;
    GateFields(f, auth);
    var e := Requests.Handle(d, m);
    Requests.MessageCounts(d, m);
    Requests.LateResultsAreAmbiguous(e, ms);
    Requests.StaysOnRecord(e, ms, m.request);
  }

  // ----- nothing that held authority is forgotten ------------------------------------

  function KeysOf(xs: seq<Assignment>): seq<Key> {
    if xs == [] then [] else KeysOf(xs[..|xs| - 1]) + [KeyOf(xs[|xs| - 1])]
  }

  /** What a slot has stored, oldest first, its current assignment last. */
  function StoredKeys(st: SlotState): seq<Key> {
    KeysOf(st.history) + (if st.current.Some? then [KeyOf(st.current.value)] else [])
  }

  predicate EndsWith(long: seq<Key>, short: seq<Key>) {
    |short| <= |long| && long[|long| - |short|..] == short
  }

  predicate StoredIn(l: Ledger, lineage: map<SlotKey, seq<Key>>, k: SlotKey) {
    k in lineage ==> HasSlot(l, k) && EndsWith(StoredKeys(l.slots[l.index[k]]), lineage[k])
  }

  ghost predicate Remembers(m: Machine, k: SlotKey) {
    StoredIn(m.fab.ledger, m.lineage, k)
  }

  ghost predicate HistoryKept(m: Machine) {
    forall k :: Remembers(m, k)
  }

  lemma EndsWithMore(long: seq<Key>, short: seq<Key>, key: Key)
    requires EndsWith(long, short)
    ensures EndsWith(long + [key], short + [key])
  {
    assert (long + [key])[|long| - |short|..] == long[|long| - |short|..] + [key];
  }

  lemma EndsWithLast(long: seq<Key>, key: Key)
    ensures EndsWith(long + [key], [] + [key])
  {
  }

  lemma KeysOfSnoc(xs: seq<Assignment>, a: Assignment)
    ensures KeysOf(xs + [a]) == KeysOf(xs) + [KeyOf(a)]
  {
    assert (xs + [a])[..|xs|] == xs;
  }

  /** A commit stores the displaced assignment in front of the new one. */
  lemma CommitStores(st: SlotState, a: Attempt)
    requires st.current.Some?
    ensures StoredKeys(st.(current := Some(Activated(a)), history := Retire(st, a))) == StoredKeys(st) + [KeyOf(a.next)]
  {
    hide KeysOf;
    KeysOfSnoc(st.history, st.current.value.(state := Fenced));
  }

  lemma CommitStoredIn(l: Ledger, lineage: map<SlotKey, seq<Key>>, a: Attempt, k: SlotKey)
    requires IndexExact(l) && Tracks(l, lineage, a.slot) && StoredIn(l, lineage, k)
    ensures StoredIn(CommitLedger(l, a), if HasSlot(l, a.slot) then Extend(lineage, a.slot, KeyOf(a.next))
                     else lineage, k)
  {
    hide AddFenced, StoredKeys, EndsWith, Retire;
    if HasSlot(l, a.slot) && k == a.slot {
      var st := l.slots[l.index[k]];
      var after := st.(current := Some(Activated(a)), history := Retire(st, a));
      if k in lineage {
        CommitStores(st, a);
        EndsWithMore(StoredKeys(st), lineage[k], KeyOf(a.next));
      } else {
        FirstStored(after, Activated(a));
      }
    }
  }

  lemma CommitRemembers(m: Machine, t: nat, now: int, k: SlotKey)
    requires Tracked(m) && Remembers(m, k) && Commits(m, t, true)
    ensures Remembers(VerifyStep(m, t, true, now), k)
  {
    hide Supersedes, CommitLedger, StoredIn, Extend, HasSlot, CurrentOf;
    var a := m.procs[t].attempt;
    assert Tracks(m.fab.ledger, m.lineage, a.slot);
    CommitStoredIn(m.fab.ledger, m.lineage, a, k);
  }

  lemma FirstStored(st: SlotState, a: Assignment)
    requires st.current == Some(a)
    ensures EndsWith(StoredKeys(st), [] + [KeyOf(a)])
  {
    EndsWithLast(KeysOf(st.history), KeyOf(a));
  }

  lemma InitialRemembers(m: Machine, a: Assignment, now: int, k: SlotKey)
    requires Tracked(m) && Remembers(m, k)
    ensures Remembers(DoStep(m, SetInitial(a, now)), k)
  {
    hide PerformWorld, PerformRoutes, PerformBook, StoredKeys, EndsWith, Initial;
    var l := m.fab.ledger;
    if InitialAllowed(l, a) && k == a.slot {
      assert Tracks(l, m.lineage, k);
      var n := SetInitialLedger(l, a);
      FirstStored(n.slots[n.index[k]], Initial(l, a));
      SameKey(l, a);
    }
  }

  lemma SameKey(l: Ledger, a: Assignment)
    ensures KeyOf(Initial(l, a)) == KeyOf(a)
  {
  }

  lemma StepRemembers(m: Machine, e: Event, k: SlotKey)
    requires Tracked(m) && Remembers(m, k)
    ensures Remembers(Next(m, e), k)
  {
    hide Tracked, StoredKeys, EndsWith, BeginStep, MarkStep, SaveStep, FenceStep, ActivateStep, RouteStep, InstallStep,
      VerifyStep, DoStep, SnapshotOf;
    match e {
      case Begin(t, plan) =>
        BeginEffect(m, t, plan);
      case VerifyReply(t, verified, now) =>
        if Commits(m, t, verified) {
          CommitRemembers(m, t, now, k);
        } else {
          VerifyWithoutCommit(m, t, verified, now);
        }
      case Do(op) =>
        if op.SetInitial? {
          InitialRemembers(m, op.assignment, op.now, k);
        } else {
          QuietSteps(m, e);
        }
      case _ => QuietSteps(m, e);
    }
  }

  lemma {:induction false} RunRemembers(m: Machine, es: seq<Event>)
    requires Tracked(m) && HistoryKept(m)
    ensures HistoryKept(Run(m, es))
    decreases |es|
  {
    hide Next, Tracked, Remembers;
    if es != [] {
      StepTracked(m, es[0]);
      forall k ensures Remembers(Next(m, es[0]), k) {
        StepRemembers(m, es[0], k);
      }
      RunRemembers(Next(m, es[0]), es[1..]);
    }
  }

  lemma StartRemembers(f: Fabric, disk: Option<Snapshot>, checkpointing: bool)
    requires IndexExact(f.ledger)
    ensures HistoryKept(Start(f, disk, checkpointing))
  {
    hide StoredKeys, EndsWith;
    var m := Start(f, disk, checkpointing);
    forall k ensures Remembers(m, k) {
      if k in m.lineage {
        var cur := CurrentOf(f.ledger, k).value;
        FirstStored(f.ledger.slots[f.ledger.index[k]], cur);
        assert [] + [KeyOf(cur)] == [KeyOf(cur)];
      }
    }
  }

  /** Over every run of every process, the stored history of a visible slot, followed by its current
      assignment, ends with exactly the assignments it has had in this process, in the order in which
      they held authority: none is lost, doubled or reordered. */
  lemma HistoryIsKept(f: Fabric, disk: Option<Snapshot>, checkpointing: bool, es: seq<Event>)
    requires IndexExact(f.ledger)
    ensures HistoryKept(Run(Start(f, disk, checkpointing), es))
  {
    hide Run, Start, Tracked, HistoryKept, Invariant, IndexExact;
    StartIsInvariant(f, disk, checkpointing, SlotKey(0, 0));
    StartRemembers(f, disk, checkpointing);
    RunRemembers(Start(f, disk, checkpointing), es);
  }
}
