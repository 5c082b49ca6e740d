/** What the coordinator knows about each target is what it was told: the tables behind the candidate
    snapshot are one dossier per target and service, and commits follow the latest dossier. */
module Reports {
  import opened Types
  import opened Domains
  import opened Selection
  import opened Routing
  import opened Fabric
  import opened Operations
  import opened Durable
  import opened Cutover
  import opened Vetting
  import Evidence

  // ----- dossiers --------------------------------------------------------------------

  /** The target's record, whether a confirmed failure stands against it, and whether it is bound to the
      service. */
  datatype Dossier = Dossier(record: Option<TargetRecord>, failed: bool, bound: bool)

  const NO_DOSSIER := Dossier(None, false, false)

  function DossierOf(w: World, t: u64, service: u64): Dossier {
    Dossier(TargetRecordOf(w, t), t in w.confirmedFailed,
            service in w.byService && t in BoundTargets(w.targets, w.byService[service]))
  }

  /** A report counts when its target is registered and it is not older than the last that counted. */
  predicate Heeded(d: Dossier, x: Facts) {
    d.record.Some? &&
    (d.record.value.facts.None? || d.record.value.facts.value.readinessGeneration <= x.readinessGeneration)
  }

  /** What one call tells about target `t`, said without the tables. */
  function Told(d: Dossier, op: Op, t: u64, service: u64): Dossier {
    match op
    case RegisterTarget(u) =>
      if u == t && d.record.None? then d.(record := Some(TargetRecord(t, None, false, NO_STATE, []))) else d
    case PublishFacts(x, _) =>
      if x.target != t || !Heeded(d, x) then d
      else Dossier(Some(d.record.value.(facts := Some(x.(evidenceFresh := true)))), d.failed && !x.ready,
                   d.bound || (service != 0 && x.service == service))
    case PublishState(u, s) =>
      if u == t && d.record.Some? then d.(record := Some(d.record.value.(state := s, hasState := true))) else d
    case PublishResources(u, rs) =>
      if u == t && d.record.Some? then d.(record := Some(d.record.value.(resources := rs))) else d
    case PublishFailure(e) =>
      if e.target == Some(t) && e.status in {Confirmed, UnknownStatus} then d.(failed := true) else d
    case _ => d
  }

  function ToldAll(d: Dossier, es: seq<Event>, t: u64, service: u64): Dossier
    decreases |es|
  {
    if es == [] then d
    else ToldAll(if es[0].Do? then Told(d, es[0].op, t, service) else d, es[1..], t, service)
  }

  // ----- the tables ------------------------------------------------------------------

  ghost predicate Numbered(w: World) {
    && (forall t :: t in w.targetIndex ==> w.targetIndex[t] < |w.targets| && w.targets[w.targetIndex[t]].id == t)
    && (forall i :: 0 <= i < |w.targets| ==>
          w.targets[i].id in w.targetIndex && w.targetIndex[w.targets[i].id] == i)
  }

  ghost predicate Bindings(w: World) {
    && (forall s, k :: s in w.byService && 0 <= k < |w.byService[s]| ==> w.byService[s][k] < |w.targets|)
    && (forall i :: 0 <= i < |w.targets| && w.targets[i].facts.Some? ==>
          var x := w.targets[i].facts.value;
          x.target == w.targets[i].id && (x.service != 0 ==> x.service in w.byService && i in w.byService[x.service]))
  }

  /** Records are numbered by target, facts are filed under their target, and whoever reported for a
      service is bound to it. */
  ghost predicate Filed(w: World) {
    Numbered(w) && Bindings(w)
  }

  predicate NoTargets(w: World) {
    w.targets == [] && w.targetIndex == map[] && w.byService == map[] && w.confirmedFailed == {}
  }

  /** A process starts with no targets, fresh or loaded. */
  lemma StartsEmpty(s: Snapshot)
    ensures NoTargets(FRESH.world) && NoTargets(Boot(s).world)
  {
    hide LoadLedger, InstallAll, MarkRevalidation;
  }

  lemma EmptyIsFiled(w: World, t: u64, service: u64)
    requires NoTargets(w)
    ensures Filed(w) && DossierOf(w, t, service) == NO_DOSSIER
  {
  }

  /** Bound means listed under the target's own number. */
  lemma BoundIsListed(w: World, t: u64, service: u64)
    requires Filed(w)
    ensures DossierOf(w, t, service).bound <==>
            t in w.targetIndex && service in w.byService && w.targetIndex[t] in w.byService[service]
  {
    if service in w.byService {
      var at := w.byService[service];
      BoundTargetsExact(w.targets, at, t);
      if t in BoundTargets(w.targets, at) {
        var k :| 0 <= k < |at| && at[k] < |w.targets| && w.targets[at[k]].id == t;
      }
      if t in w.targetIndex && w.targetIndex[t] in at {
        var k :| 0 <= k < |at| && at[k] == w.targetIndex[t];
      }
    }
  }

  lemma ReportFiled(w: World, x: Facts)
    requires Filed(w) && FactsAccepted(w, x)
    ensures Filed(PublishFactsWorld(w, x))
  {
  }

  lemma RegisterFiled(w: World, t: u64)
    requires Filed(w)
    ensures Filed(PerformWorld(w, RegisterTarget(t)))
  {
  }

  lemma UpdateFiled(w: World, t: u64, r: TargetRecord)
    requires Filed(w) && TargetRecordOf(w, t).Some?
    requires r.id == TargetRecordOf(w, t).value.id && r.facts == TargetRecordOf(w, t).value.facts
    ensures Filed(UpdateTarget(w, t, r))
  {
  }

  lemma OtherFiled(w: World, op: Op)
    requires Filed(w) && !op.PublishFacts?
    ensures Filed(PerformWorld(w, op))
  {
    hide FindService, Evidence.Publish, Evidence.Clear, Declare, SetMember, Numbered, Bindings, TargetRecordOf,
      UpdateTarget;
    if op.RegisterTarget? {
      RegisterFiled(w, op.target);
    } else if op.PublishState? {
      if TargetRecordOf(w, op.target).Some? {
        UpdateFiled(w, op.target, TargetRecordOf(w, op.target).value.(state := op.state, hasState := true));
      }
    } else if op.PublishResources? {
      if TargetRecordOf(w, op.target).Some? {
        UpdateFiled(w, op.target, TargetRecordOf(w, op.target).value.(resources := op.resources));
      }
    } else {
      SameFiled(w, PerformWorld(w, op));
    }
  }

  lemma SameFiled(w: World, v: World)
    requires Filed(w) && v.targets == w.targets && v.targetIndex == w.targetIndex && v.byService == w.byService
    ensures Filed(v)
  {
  }

  lemma ReportTells(w: World, x: Facts, now: int, t: u64, service: u64)
    requires Filed(w)
    ensures Filed(PerformWorld(w, PublishFacts(x, now)))
    ensures DossierOf(PerformWorld(w, PublishFacts(x, now)), t, service) ==
            Told(DossierOf(w, t, service), PublishFacts(x, now), t, service)
  {
    hide BoundTargets;
    BoundIsListed(w, t, service);
    if FactsAccepted(w, x) {
      ReportFiled(w, x);
      BoundIsListed(PublishFactsWorld(w, x), t, service);
    }
  }

  lemma RegisterTells(w: World, u: u64, t: u64, service: u64)
    requires Filed(w)
    ensures DossierOf(PerformWorld(w, RegisterTarget(u)), t, service) ==
            Told(DossierOf(w, t, service), RegisterTarget(u), t, service)
  {
    hide BoundTargets;
    RegisterFiled(w, u);
    BoundIsListed(w, t, service);
    BoundIsListed(PerformWorld(w, RegisterTarget(u)), t, service);
  }

  lemma OtherTells(w: World, op: Op, t: u64, service: u64)
    requires Filed(w) && !op.PublishFacts?
    ensures Filed(PerformWorld(w, op))
    ensures DossierOf(PerformWorld(w, op), t, service) == Told(DossierOf(w, t, service), op, t, service)
  {
    OtherFiled(w, op);
    if op.RegisterTarget? {
      hide *;
      RegisterTells(w, op.target, t, service);
    } else {
      hide BoundTargets, FindService, Evidence.Publish, Evidence.Clear, Declare, SetMember, Bindings;
      BoundIsListed(w, t, service);
      BoundIsListed(PerformWorld(w, op), t, service);
    }
  }

  /** Over every run the tables say about a target exactly what the calls told about it. */
  lemma {:induction false} DossiersOverRuns(m: Machine, es: seq<Event>, t: u64, service: u64)
    requires Filed(m.fab.world)
    ensures Filed(Run(m, es).fab.world)
    ensures DossierOf(Run(m, es).fab.world, t, service) ==
            ToldAll(DossierOf(m.fab.world, t, service), es, t, service)
    decreases |es|
  {
    hide Filed, DossierOf, Told, Next;
    if es != [] {
      StepTells(m, es[0], t, service);
      DossiersOverRuns(Next(m, es[0]), es[1..], t, service);
    }
  }

  lemma StepTells(m: Machine, e: Event, t: u64, service: u64)
    requires Filed(m.fab.world)
    ensures Filed(Next(m, e).fab.world)
    ensures DossierOf(Next(m, e).fab.world, t, service) ==
            if e.Do? then Told(DossierOf(m.fab.world, t, service), e.op, t, service)
            else DossierOf(m.fab.world, t, service)
  {
    if !e.Do? {
      hide Next, Filed, DossierOf;
      SectionsKeepWorld(m, e);
    } else {
      hide Filed, DossierOf, Told, PerformWorld, PerformLedger, PerformBook, PerformRoutes;
      assert Next(m, e).fab.world == PerformWorld(m.fab.world, e.op);
      match e.op {
        case PublishFacts(x, now) => ReportTells(m.fab.world, x, now, t, service);
        case _ => OtherTells(m.fab.world, e.op, t, service);
      }
    }
  }

  // ----- what the messages say -------------------------------------------------------

  lemma {:induction false} ToldSnoc(d: Dossier, es: seq<Event>, e: Event, t: u64, service: u64)
    ensures ToldAll(d, es + [e], t, service) ==
            if e.Do? then Told(ToldAll(d, es, t, service), e.op, t, service) else ToldAll(d, es, t, service)
    decreases |es|
  {
    hide Told;
    if es == [] {
      assert es + [e] == [e] && [e][1..] == [];
    } else {
      assert (es + [e])[0] == es[0] && (es + [e])[1..] == es[1..] + [e];
      ToldSnoc(if es[0].Do? then Told(d, es[0].op, t, service) else d, es[1..], e, t, service);
    }
  }

  /** A failure of the target, confirmed or of unknown standing. */
  predicate Blames(e: Event, t: u64) {
    e.Do? && e.op.PublishFailure? && e.op.event.target == Some(t) && e.op.event.status in {Confirmed, UnknownStatus}
  }

  /** Event `j` is a report of the target, ready and not older than what it had reported before. */
  predicate Relieves(es: seq<Event>, j: nat, t: u64)
    requires j < |es|
  {
    es[j].Do? && es[j].op.PublishFacts? && es[j].op.facts.target == t && es[j].op.facts.ready
      && Heeded(ToldAll(NO_DOSSIER, es[..j], t, 0), es[j].op.facts)
  }

  ghost predicate Unrelieved(es: seq<Event>, i: nat, t: u64) {
    i < |es| && Blames(es[i], t) && forall j :: i < j < |es| ==> !Relieves(es, j, t)
  }

  lemma {:induction false} RecordIgnoresService(d: Dossier, c: Dossier, es: seq<Event>, t: u64, s: u64, u: u64)
    requires d.record == c.record
    ensures ToldAll(d, es, t, s).record == ToldAll(c, es, t, u).record
    decreases |es|
  {
    if es != [] {
      RecordIgnoresService(if es[0].Do? then Told(d, es[0].op, t, s) else d,
                           if es[0].Do? then Told(c, es[0].op, t, u) else c, es[1..], t, s, u);
    }
  }

  /** A target counts as failed if and only if some failure of it was not answered by a later report
      that it is ready. A clearing of the evidence does not answer it. */
  lemma {:induction false} FailedIff(es: seq<Event>, t: u64, service: u64)
    ensures ToldAll(NO_DOSSIER, es, t, service).failed <==> exists i: nat :: Unrelieved(es, i, t)
    decreases |es|
  {
    if es != [] {
      var n := |es| - 1;
      var init := es[..n];
      assert es == init + [es[n]];
      FailedIff(init, t, service);
      ToldSnoc(NO_DOSSIER, init, es[n], t, service);
      RecordIgnoresService(NO_DOSSIER, NO_DOSSIER, init, t, service, 0);
      LastWord(es, t);
      assert Relieves(es, n, t) ==> !Blames(es[n], t);
    }
  }

  lemma LastWord(es: seq<Event>, t: u64)
    requires es != []
    ensures var n := |es| - 1;
            (exists i: nat :: Unrelieved(es, i, t)) <==>
            Blames(es[n], t) || ((exists i: nat :: Unrelieved(es[..n], i, t)) && !Relieves(es, n, t))
  {
    hide Blames, ToldAll;
    var n := |es| - 1;
    var init := es[..n];
    forall j | 0 <= j < n ensures Relieves(init, j, t) <==> Relieves(es, j, t) {
      assert init[..j] == es[..j];
    }
    if i: nat :| Unrelieved(es, i, t) {
      if i < n {
        assert Unrelieved(init, i, t);
      }
    }
    if Blames(es[n], t) {
      assert Unrelieved(es, n, t);
    }
    if i: nat :| Unrelieved(init, i, t) && !Relieves(es, n, t) {
      assert Unrelieved(es, i, t);
    }
  }

  /** Every commit promotes its target as the target had last reported itself when the attempt was
      validated: ready, with the identity, the state and the resources of those reports, and, if it was
      bound to the service, with every failure of it answered. */
  lemma CommittedAsReported(m: Machine, es: seq<Event>, i: nat) returns (n: nat)
    requires NoTargets(m.fab.world) && m.procs == map[] && m.log == [] && i < |Run(m, es).log|
    ensures n <= |es|
    ensures var a := Run(m, es).log[i].attempt;
            var d := ToldAll(NO_DOSSIER, es[..n], a.next.target, a.slot.service);
            && d.record.Some? && d.record.value.facts == Some(a.selected.facts) && a.selected.facts.ready
            && Describes(a.next, a.selected.facts)
            && a.selected.state == d.record.value.state && a.selected.resources == d.record.value.resources
            && (d.bound ==> !d.failed)
  {
    hide Run, Candidates, BuildContext, Qualified, CurrentOf, ToldAll, BoundTargets, Filed;
    n := CommittedWasVetted(m, es, i);
    var a := Run(m, es).log[i].attempt;
    var w := Run(m, es[..n]).fab.world;
    EmptyIsFiled(m.fab.world, a.next.target, a.slot.service);
    DossiersOverRuns(m, es[..n], a.next.target, a.slot.service);
    CandidateIsRecorded(w, a.slot, a.selected);
  }

  lemma CandidateIsRecorded(w: World, slot: SlotKey, c: Candidate)
    requires Filed(w) && c in Candidates(w, slot)
    ensures var r := TargetRecordOf(w, c.facts.target);
            r.Some? && r.value.facts == Some(c.facts) && c.state == r.value.state && c.resources == r.value.resources
  {
    hide Candidates, Offered;
    CandidatesExact(w, slot, c);
    var i: nat :| Offered(w, slot, i) && MadeFrom(w.targets, i, c);
    assert w.targetIndex[w.targets[i].id] == i;
  }

  // ----- the numbers given to observations -------------------------------------------

  predicate Unnumbered(e: Event) {
    e.Do? && e.op.PublishFailure? && e.op.event.received.seqNo == 0
  }

  function Numbers(es: seq<Event>): nat {
    if es == [] then 0 else Numbers(es[..|es| - 1]) + (if Unnumbered(es[|es| - 1]) then 1 else 0)
  }

  /** Observations that come without a number are numbered one after the other. */
  lemma {:induction false} ObservationsAreNumbered(m: Machine, es: seq<Event>)
    requires m.fab.world.receiptSeq + Numbers(es) < U64_LIMIT
    ensures Run(m, es).fab.world.receiptSeq == m.fab.world.receiptSeq + Numbers(es)
    decreases |es|
  {
    hide Next, Unnumbered;
    if es != [] {
      var n := |es| - 1;
      ObservationsAreNumbered(m, es[..n]);
      assert es == es[..n] + [es[n]];
      RunSnoc(m, es[..n], es[n]);
      StepNumbers(Run(m, es[..n]), es[n]);
    }
  }

  lemma StepNumbers(m: Machine, e: Event)
    requires m.fab.world.receiptSeq + 1 < U64_LIMIT || !Unnumbered(e)
    ensures Next(m, e).fab.world.receiptSeq == m.fab.world.receiptSeq + (if Unnumbered(e) then 1 else 0)
  {
    if e.Do? {
      hide PerformLedger, PerformRoutes, PerformBook, FindService, FactsAccepted, TargetRecordOf, Declare, SetMember,
        Evidence.Publish, Evidence.Clear;
      assert Next(m, e).fab.world == PerformWorld(m.fab.world, e.op);
    } else {
      hide Next;
      SectionsKeepWorld(m, e);
    }
  }

  /** The observation as it is stored. */
  function Stamped(w: World, e: FailureEvent): FailureEvent {
    e.(received := e.received.(seqNo := (w.receiptSeq + 1) % U64_LIMIT))
  }

  /** An observation without a number replaces what is stored under its id if and only if that has a
      smaller number, or the same and no later clock, and is not a confirmed failure being cleared. */
  lemma ObservationKeptIff(w: World, e: FailureEvent)
    requires Evidence.Keyed(w.evidence) && e.received.seqNo == 0 && w.receiptSeq + 1 < U64_LIMIT
    ensures var v := PerformWorld(w, PublishFailure(e)).evidence;
            e.eventId in v.idIndex && v.idIndex[e.eventId] < |v.events| &&
            (v.events[v.idIndex[e.eventId]].event == Stamped(w, e) <==>
             (e.eventId in w.evidence.idIndex ==>
                var was := w.evidence.events[w.evidence.idIndex[e.eventId]].event;
                && (was.received.seqNo <= w.receiptSeq
                    || (was.received.seqNo == w.receiptSeq + 1 && was.received.wallNs <= e.received.wallNs))
                && !(was.status == Confirmed && e.status == Cleared)))
  {
    Evidence.PublishKeepsKeyed(w.evidence, Stamped(w, e));
  }

  lemma {:induction false} LoadedIsKeyed(s: Evidence.Store, evs: seq<FailureEvent>)
    requires Evidence.Keyed(s)
    ensures Evidence.Keyed(Evidence.PublishAll(s, evs))
    decreases |evs|
  {
    hide Evidence.Keyed, Evidence.Publish;
    if evs != [] {
      Evidence.PublishKeepsKeyed(s, evs[0]);
      LoadedIsKeyed(Evidence.Publish(s, evs[0]), evs[1..]);
    }
  }

  /** The numbering starts again at every restart. So an observation without a number that a restarted
      coordinator hears first replaces what was saved under its id if and only if that was saved
      unnumbered, or as number one with no later clock, and is not a confirmed failure being cleared;
      a saved failure with a larger number turns it away as stale. */
  lemma RestartDropsObservation(s: Snapshot, e: FailureEvent)
    requires e.received.seqNo == 0
    ensures var w := Boot(s).world;
            var v := PerformWorld(w, PublishFailure(e)).evidence;
            && Evidence.Keyed(w.evidence) && e.eventId in v.idIndex && v.idIndex[e.eventId] < |v.events|
            && (v.events[v.idIndex[e.eventId]].event == Stamped(w, e) <==>
                (e.eventId in w.evidence.idIndex ==>
                   var was := w.evidence.events[w.evidence.idIndex[e.eventId]].event;
                   && (was.received.seqNo == 0
                       || (was.received.seqNo == 1 && was.received.wallNs <= e.received.wallNs))
                   && !(was.status == Confirmed && e.status == Cleared)))
  {
    hide LoadLedger, InstallAll, MarkRevalidation, Evidence.PublishAll, PerformWorld;
    Evidence.EmptyIsKeyed();
    LoadedIsKeyed(Evidence.EMPTY_STORE, s.evidence);
    var w := Boot(s).world;
    assert w.receiptSeq == 0 && w.evidence == Evidence.PublishAll(Evidence.EMPTY_STORE, s.evidence);
    ObservationKeptIff(w, e);
  }
}
