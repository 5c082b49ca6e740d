/** What a restart restores besides the slots: the route table and the failure domains stay well
    formed in every run, through crashes and restarts, so every save can be restored in full. */
module Restored {
  import opened Types
  import opened Domains
  import opened Routing
  import opened Fabric
  import opened Operations
  import opened Durable
  import opened Persistence
  import opened Cutover
  import opened Authority
  import opened Restart

  ghost predicate TablesOk(f: Fabric) {
    ValidRoutes(f.routes) && ValidRegistry(f.world.domains)
  }

  lemma CallKeepsRoutes(f: Fabric, op: Op)
    requires ValidRoutes(f.routes)
    ensures ValidRoutes(PerformRoutes(f, op))
  {
    hide ValidRoutes, Install, BindGateway, MarkRevalidation;
    match op {
      case InstallRoute(e, boot) => InstallKeepsValid(f.routes, e.(state := Acknowledged, gatewayBoot := boot));
      case BindRouteGateway(slot, boot) => ApplyContinues(f.routes, OpBind(slot, boot));
      case MarkRoutesRevalidation => MarkKeepsValid(f.routes);
      case _ =>
    }
  }

  lemma CallKeepsRegistry(w: World, op: Op)
    requires ValidRegistry(w.domains)
    ensures ValidRegistry(PerformWorld(w, op).domains)
  {
    match op {
      case DeclareDomain(d) =>
        if d.id != 0 {
          DeclareKeepsRegistry(w.domains.domains, d);
        }
      case SetMembership(x) => SetMemberKeepsRegistry(w.domains.memberships, x);
      case _ => OtherCallKeepsRegistry(w, op);
    }
  }

  lemma OtherCallKeepsRegistry(w: World, op: Op)
    requires !op.DeclareDomain? && !op.SetMembership?
    ensures PerformWorld(w, op).domains == w.domains
  {
    hide FindService, TargetRecordOf, FactsAccepted;
  }

  /** Apart from the facade, only the installing section writes a table, and it writes a route. */
  lemma SectionTables(m: Machine, e: Event)
    requires !e.Do?
    ensures Next(m, e).fab.world == m.fab.world
    ensures Next(m, e).fab.routes == m.fab.routes || exists x :: Next(m, e).fab.routes == Install(m.fab.routes, x)
  {
    hide SnapshotOf, RouteFor, Install, CommitLedger, Supersedes, AddFenced, Validate;
  }

  lemma StepKeepsTables(m: Machine, e: Event)
    requires TablesOk(m.fab)
    ensures TablesOk(Next(m, e).fab)
  {
    if e.Do? {
      hide ValidRoutes, ValidRegistry, PerformWorld, PerformRoutes, PerformBook, PerformLedger, InitialAllowed;
      CallKeepsRoutes(m.fab, e.op);
      CallKeepsRegistry(m.fab.world, e.op);
    } else {
      hide Next, ValidRoutes, ValidRegistry, Install;
      SectionTables(m, e);
      forall x ensures ValidRoutes(Install(m.fab.routes, x)) {
        InstallKeepsValid(m.fab.routes, x);
      }
    }
  }

  lemma {:induction false} InstallAllKeepsValid(rs: Routes, xs: seq<RouteEntry>)
    requires ValidRoutes(rs)
    ensures ValidRoutes(InstallAll(rs, xs))
    decreases |xs|
  {
    hide ValidRoutes, Install;
    if xs != [] {
      InstallKeepsValid(rs, xs[0]);
      InstallAllKeepsValid(Install(rs, xs[0]), xs[1..]);
    }
  }

  lemma LoadedTables(s: Snapshot)
    ensures TablesOk(Reload(s))
  {
    hide LoadLedger, InstallAll, DeclareAll, SetMembers;
    var z := Normalize(s);
    InstallAllKeepsValid([], z.routes);
    MarkKeepsValid(InstallAll([], z.routes));
    DeclaredIsProper([], z.domains);
    MembersAreDistinct([], z.memberships);
  }

  lemma {:induction false} TablesOverRuns(m: Machine, xs: seq<Action>)
    requires TablesOk(m.fab)
    ensures TablesOk(ActAll(m, xs).fab)
    decreases |xs|
  {
    hide TablesOk, Next, Reload;
    if xs != [] {
      match xs[0] {
        case Step(e) => StepKeepsTables(m, e);
        case Crash =>
          if m.disk.Some? {
            LoadedTables(m.disk.value);
          }
      }
      TablesOverRuns(Act(m, xs[0]), xs[1..]);
    }
  }

  /** In every state of every run of a coordinator that started fresh, through any number of crashes
      and restarts, saving and loading brings back every domain and membership, in order, and on each
      slot the current route, awaiting revalidation if it was serving. */
  lemma TablesAreRestored(epoch: u64, checkpointing: bool, xs: seq<Action>, k: SlotKey)
    ensures var f := ActAll(Start(WithEpoch(FRESH, epoch), None, checkpointing), xs).fab;
            && Load(SnapshotOf(f)).world.domains == f.world.domains
            && CurrentRoute(Load(SnapshotOf(f)).routes, k) == Marked(CurrentRoute(f.routes, k))
  {
    var m := Start(WithEpoch(FRESH, epoch), None, checkpointing);
    assert TablesOk(m.fab);
    hide ActAll, Start, SnapshotOf, Load, CurrentRoute, Marked, ValidRoutes, ValidRegistry;
    TablesOverRuns(m, xs);
    var f := ActAll(m, xs).fab;
    RegistryRestoredIff(f);
    RoutesRestored(f, k);
  }
}
