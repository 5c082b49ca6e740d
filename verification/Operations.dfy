/** The calls of the facade outside the cutover transaction. A call that the source refuses
    with an exception leaves the state alone. */
module Operations {
  import opened Types
  import opened Domains
  import opened Selection
  import opened Routing
  import opened Fabric
  import Evidence

  datatype Op =
    | CreateService(def: ServiceDefinition)
    | SetInitial(assignment: Assignment, now: int)
    | RegisterTarget(target: u64)
    | PublishFacts(facts: Facts, now: int)
    | PublishState(target: u64, state: StateFacts)
    | PublishResources(target: u64, resources: seq<Resource>)
    | PublishFailure(event: FailureEvent)
    | ClearFailure(id: u64)
    | DeclareDomain(domain: DomainDecl)
    | SetMembership(member: Membership)
    | InstallRoute(entry: RouteEntry, boot: u64)
    | BindRouteGateway(slot: SlotKey, boot: u64)
    | MarkRoutesRevalidation
    | SetGatewayBoot(boot: u64)
    | SetBarrier(milestone: Milestone)
    | AuthorizeFailback(slot: SlotKey)

  predicate InitialAllowed(l: Ledger, a: Assignment) {
    a.slot.service != 0 && a.slot.slot != 0 && CurrentOf(l, a.slot).None?
  }

  /** The initial assignment as it is stored. */
  function Initial(l: Ledger, a: Assignment): Assignment {
    a.(state := Active, provisory := false,
       authorityGeneration := if a.authorityGeneration == 0 then l.lastAuthority else a.authorityGeneration)
  }

  /** An initial assignment serves at once and is otherwise stored as given; only a null authority
      generation is replaced, by the ledger's. */
  lemma InitialAsGiven(l: Ledger, a: Assignment)
    ensures Initial(l, a).state == Active && !Initial(l, a).provisory
    ensures Initial(l, a).authorityGeneration ==
            (if a.authorityGeneration != 0 then a.authorityGeneration else l.lastAuthority)
    ensures a == Initial(l, a)
                 .(state := a.state, provisory := a.provisory, authorityGeneration := a.authorityGeneration)
  {
  }

  function SetInitialLedger(l: Ledger, a: Assignment): Ledger {
    if HasSlot(l, a.slot) then
      var i := l.index[a.slot];
      l.(slots := l.slots[i := l.slots[i].(current := Some(Initial(l, a)))])
    else
      l.(slots := l.slots + [SlotState(a.slot, Some(Initial(l, a)), [])], index := l.index[a.slot := |l.slots|])
  }

  function UpdateTarget(w: World, t: u64, r: TargetRecord): World
    requires t in w.targetIndex && w.targetIndex[t] < |w.targets|
  {
    w.(targets := w.targets[w.targetIndex[t] := r])
  }

  /** Facts are taken when their readiness generation is not older than the stored one. */
  predicate FactsAccepted(w: World, x: Facts) {
    var r := TargetRecordOf(w, x.target);
    r.Some? && (r.value.facts.Some? ==> x.readinessGeneration >= r.value.facts.value.readinessGeneration)
  }

  function PublishFactsWorld(w: World, x: Facts): World
    requires FactsAccepted(w, x)
  {
    var r := TargetRecordOf(w, x.target).value;
    var bind := x.service != 0 && !(r.facts.Some? && r.facts.value.service == x.service);
    var at := if x.service in w.byService then w.byService[x.service] else [];
    UpdateTarget(w, x.target, r.(facts := Some(x.(evidenceFresh := true))))
      .(byService := if bind then w.byService[x.service := at + [w.targetIndex[x.target]]] else w.byService,
        confirmedFailed := if x.ready then w.confirmedFailed - {x.target} else w.confirmedFailed)
  }

  function PublishFailureWorld(w: World, e: FailureEvent): World {
    var seqNo := (w.receiptSeq + 1) % U64_LIMIT;
    var ev := if e.received.seqNo == 0 then e.(received := e.received.(seqNo := seqNo)) else e;
    w.(receiptSeq := if e.received.seqNo == 0 then seqNo else w.receiptSeq,
       confirmedFailed := if (e.status.Confirmed? || e.status.UnknownStatus?) && e.target.Some?
                          then w.confirmedFailed + {e.target.value} else w.confirmedFailed,
       evidence := Evidence.Publish(w.evidence, ev))
  }

  function PerformWorld(w: World, op: Op): World {
    match op
    case CreateService(d) => if FindService(w.services, d.service).Some? then w else w.(services := w.services + [d])
    case RegisterTarget(t) =>
      if TargetRecordOf(w, t).Some? then w
      else w.(targets := w.targets + [TargetRecord(t, None, false, NO_STATE, [])],
              targetIndex := w.targetIndex[t := |w.targets|])
    case PublishFacts(x, _) => if FactsAccepted(w, x) then PublishFactsWorld(w, x) else w
    case PublishState(t, s) =>
      if TargetRecordOf(w, t).None? then w
        else UpdateTarget(w, t, TargetRecordOf(w, t).value.(state := s, hasState := true))
    case PublishResources(t, rs) =>
      if TargetRecordOf(w, t).None? then w else UpdateTarget(w, t, TargetRecordOf(w, t).value.(resources := rs))
    case PublishFailure(e) => PublishFailureWorld(w, e)
    case ClearFailure(id) => w.(evidence := Evidence.Clear(w.evidence, id))
    case DeclareDomain(d) => if d.id == 0 then w
      else w.(domains := w.domains.(domains := Declare(w.domains.domains, d)))
    case SetMembership(m) => w.(domains := w.domains.(memberships := SetMember(w.domains.memberships, m)))
    case SetGatewayBoot(b) => w.(gatewayBoot := b)
    case _ => w
  }

  const NO_STATE := StateFacts(false, None, None, false, false, false, false, false)

  function PerformRoutes(f: Fabric, op: Op): Routes {
    match op
    case InstallRoute(e, boot) =>
      if e.epoch != f.ledger.epoch then f.routes else Install(f.routes, e.(state := Acknowledged, gatewayBoot := boot))
    case BindRouteGateway(slot, boot) => BindGateway(f.routes, slot, boot)
    case MarkRoutesRevalidation => MarkRevalidation(f.routes)
    case _ => f.routes
  }

  /** A route that the facade is asked to install becomes the slot's entry, acknowledged and bound to the
      given gateway, if and only if it is of the running epoch, names a service, and is newer than the
      entry and not of an older epoch (or is that very entry already). */
  lemma FacadeInstallsIff(f: Fabric, e: RouteEntry, boot: u64)
    ensures var was := EntryOf(f.routes, e.slot);
            var made := e.(state := Acknowledged, gatewayBoot := boot);
            EntryOf(PerformRoutes(f, InstallRoute(e, boot)), e.slot) == Some(made) <==>
            || was == Some(made)
            || (&& e.epoch == f.ledger.epoch && e.slot.service != 0
                && (was.Some? ==>
                      was.value.generation < e.generation && was.value.epoch.value <= e.epoch.value))
  {
    hide EntryOf, Install;
    InstallRegisters(f.routes, e.(state := Acknowledged, gatewayBoot := boot), e.slot);
  }

  function PerformBook(f: Fabric, op: Op): Book {
    match op
    case SetInitial(a, now) =>
      if !InitialAllowed(f.ledger, a) then f.book
      else f.book.(preferred := f.book.preferred[a.slot := a.target],
                   lastTransition := f.book.lastTransition[a.slot := now],
                   attempts := f.book.attempts[a.slot := 0])
    case PublishFacts(x, now) =>
      if FactsAccepted(f.world, x) && x.ready then f.book.(readySince := f.book.readySince[x.target := now]) else f.book
    case AuthorizeFailback(slot) => f.book.(manual := f.book.manual + {slot})
    case _ => f.book
  }

  function PerformLedger(l: Ledger, op: Op): Ledger {
    if op.SetInitial? && InitialAllowed(l, op.assignment) then SetInitialLedger(l, op.assignment) else l
  }

  function Perform(f: Fabric, op: Op): Fabric {
    f.(ledger := PerformLedger(f.ledger, op),
       world := PerformWorld(f.world, op),
       routes := PerformRoutes(f, op),
       book := PerformBook(f, op),
       barrier := if op.SetBarrier? then op.milestone else f.barrier)
  }
}
