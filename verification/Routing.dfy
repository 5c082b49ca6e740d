/** The route table: one current route per slot, and the routes it displaced. */
module Routing {
  import opened Types

  datatype SlotRoute = SlotRoute(current: RouteEntry, history: seq<RouteEntry>)

  type Routes = seq<SlotRoute>

  // ----- operations ------------------------------------------------------------------

  function FindRoute(rs: Routes, slot: SlotKey): (r: Option<nat>)
    ensures r.Some? ==> r.value < |rs| && rs[r.value].current.slot == slot
    ensures r.Some? ==> forall k :: 0 <= k < r.value ==> rs[k].current.slot != slot
    ensures r.None? ==> forall k :: 0 <= k < |rs| ==> rs[k].current.slot != slot
  {
    FindRouteFrom(rs, slot, 0)
  }

  function FindRouteFrom(rs: Routes, slot: SlotKey, i: nat): (r: Option<nat>)
    requires i <= |rs| && forall k :: 0 <= k < i ==> rs[k].current.slot != slot
    ensures r.Some? ==> r.value < |rs| && rs[r.value].current.slot == slot
    ensures r.Some? ==> forall k :: 0 <= k < r.value ==> rs[k].current.slot != slot
    ensures r.None? ==> forall k :: 0 <= k < |rs| ==> rs[k].current.slot != slot
    decreases |rs| - i
  {
    if i == |rs| then None
    else if rs[i].current.slot == slot then Some(i)
    else FindRouteFrom(rs, slot, i + 1)
  }

  /** The routes accepted for installation: strictly newer, and not from an older epoch. */
  predicate Installable(rs: Routes, e: RouteEntry) {
    && e.slot.service != 0
    && var at := FindRoute(rs, e.slot);
       at.Some? ==>
         var cur := rs[at.value].current;
         e.generation > cur.generation && e.epoch.value >= cur.epoch.value
  }

  function Install(rs: Routes, e: RouteEntry): Routes {
    if !Installable(rs, e) then rs
    else
      match FindRoute(rs, e.slot)
      case None => rs + [SlotRoute(e, [])]
      case Some(i) => rs[i := SlotRoute(e, rs[i].history + [rs[i].current])]
  }

  function BindGateway(rs: Routes, slot: SlotKey, boot: u64): Routes {
    match FindRoute(rs, slot)
    case None => rs
    case Some(i) =>
      if rs[i].current.state.EmptyRoute? then rs
      else rs[i := rs[i].(current := rs[i].current.(gatewayBoot := boot))]
  }

  predicate Acknowledgeable(rs: Routes, slot: SlotKey, gen: u64, boot: u64) {
    var at := FindRoute(rs, slot);
    at.Some? &&
    var cur := rs[at.value].current;
    cur.generation == gen && cur.gatewayBoot == boot && (cur.state.Installed? || cur.state.PendingInstall?)
  }

  function Acknowledge(rs: Routes, slot: SlotKey, gen: u64, boot: u64): Routes {
    if !Acknowledgeable(rs, slot, gen, boot) then rs
    else
      var i := FindRoute(rs, slot).value;
      rs[i := rs[i].(current := rs[i].current.(state := Acknowledged))]
  }

  predicate Serving(s: RouteState) {
    s.Acknowledged? || s.Installed? || s.PendingInstall?
  }

  function Revalidated(sr: SlotRoute): SlotRoute {
    if Serving(sr.current.state) then sr.(current := sr.current.(state := RouteNeedsRevalidation)) else sr
  }

  function MarkRevalidation(rs: Routes): (r: Routes)
    ensures |r| == |rs| && forall k :: 0 <= k < |rs| ==> r[k] == Revalidated(rs[k])
  {
    if rs == [] then [] else [Revalidated(rs[0])] + MarkRevalidation(rs[1..])
  }

  function CurrentRoute(rs: Routes, slot: SlotKey): Option<RouteEntry> {
    match FindRoute(rs, slot)
    case None => None
    case Some(i) => if rs[i].current.state.EmptyRoute? then None else Some(rs[i].current)
  }

  function AllRoutes(rs: Routes): seq<RouteEntry> {
    if rs == [] then []
    else (if rs[0].current.state.EmptyRoute? then [] else [rs[0].current]) + AllRoutes(rs[1..])
  }

  // ----- invariants ------------------------------------------------------------------

  /** Everything a slot ever routed to, oldest first. */
  function Lineage(sr: SlotRoute): seq<RouteEntry> {
    sr.history + [sr.current]
  }

  ghost predicate Ordered(sr: SlotRoute) {
    var h := Lineage(sr);
    forall i, j :: 0 <= i < j < |h| ==>
      h[i].generation < h[j].generation && h[i].epoch.value <= h[j].epoch.value && h[i].slot == h[j].slot
  }

  ghost predicate OneRoutePerSlot(rs: Routes) {
    forall i, j :: 0 <= i < j < |rs| ==> rs[i].current.slot != rs[j].current.slot
  }

  ghost predicate ValidRoutes(rs: Routes) {
    && OneRoutePerSlot(rs)
    && forall i :: 0 <= i < |rs| ==> Ordered(rs[i]) && rs[i].current.slot.service != 0
  }

  class RouteTable {
    var current: Routes
    var revalidationCount: nat

    constructor ()
      ensures current == [] && revalidationCount == 0
    {
      current, revalidationCount := [], 0;
    }

    method Find(slot: SlotKey) returns (at: Option<nat>)
      ensures at == FindRoute(current, slot)
    {
      for i := 0 to |current|
        invariant forall k :: 0 <= k < i ==> current[k].current.slot != slot
      {
        if current[i].current.slot == slot {
          return Some(i);
        }
      }
      return None;
    }

    method InstallEntry(e: RouteEntry) returns (accepted: bool)
      requires ValidRoutes(current)
      modifies this`current
      ensures ValidRoutes(current)
      ensures current == Install(old(current), e) && accepted == Installable(old(current), e)
    {
      if e.slot.service == 0 {
        return false;
      }
      var at := Find(e.slot);
      InstallKeepsValid(current, e);
      if at.Some? {
        var sr := current[at.value];
        if e.generation <= sr.current.generation || e.epoch.value < sr.current.epoch.value {
          return false;
        }
        current := current[at.value := SlotRoute(e, sr.history + [sr.current])];
        return true;
      }
      current := current + [SlotRoute(e, [])];
      return true;
    }

    method Bind(slot: SlotKey, boot: u64) returns (bound: bool)
      requires ValidRoutes(current)
      modifies this`current
      ensures ValidRoutes(current)
      ensures current == BindGateway(old(current), slot, boot) && bound == CurrentRoute(old(current), slot).Some?
    {
      var at := Find(slot);
      if at.None? || current[at.value].current.state.EmptyRoute? {
        return false;
      }
      TouchKeepsValid(current, at.value, current[at.value].current.state, boot);
      current := current[at.value := current[at.value].(current := current[at.value].current.(gatewayBoot := boot))];
      return true;
    }

    method AcknowledgeRoute(slot: SlotKey, gen: u64, boot: u64) returns (accepted: bool)
      requires ValidRoutes(current)
      modifies this`current
      ensures ValidRoutes(current)
      ensures current == Acknowledge(old(current), slot, gen, boot)
              && accepted == Acknowledgeable(old(current), slot, gen, boot)
    {
      var at := Find(slot);
      if at.None? {
        return false;
      }
      var cur := current[at.value].current;
      if cur.generation != gen || boot != cur.gatewayBoot || (!cur.state.Installed? && !cur.state.PendingInstall?) {
        return false;
      }
      TouchKeepsValid(current, at.value, Acknowledged, boot);
      current := current[at.value := current[at.value].(current := cur.(state := Acknowledged))];
      return true;
    }

    /** Demotes every serving route and counts the demotions. */
    method MarkRevalidationRequired()
      requires ValidRoutes(current)
      modifies this
      ensures ValidRoutes(current)
      ensures current == MarkRevalidation(old(current))
      ensures revalidationCount == old(revalidationCount) + ServingCount(old(current))
    {
      MarkKeepsValid(current);
      for i := 0 to |current|
        invariant |current| == |old(current)|
        invariant forall k :: 0 <= k < |current| ==>
                    current[k] == if k < i then Revalidated(old(current)[k]) else old(current)[k]
        invariant revalidationCount + ServingCount(old(current)[i..])
                  == old(revalidationCount) + ServingCount(old(current))
      {
        var sr := current[i];
        if Serving(sr.current.state) {
          current := current[i := sr.(current := sr.current.(state := RouteNeedsRevalidation))];
          revalidationCount := revalidationCount + 1;
        }
        assert old(current)[i..][1..] == old(current)[i + 1..];
      }
      assert current == MarkRevalidation(old(current));
    }
  }

  function ServingCount(rs: Routes): nat {
    if rs == [] then 0 else (if Serving(rs[0].current.state) then 1 else 0) + ServingCount(rs[1..])
  }

  lemma InstallKeepsValid(rs: Routes, e: RouteEntry)
    requires ValidRoutes(rs)
    ensures ValidRoutes(Install(rs, e))
  {
    if Installable(rs, e) && FindRoute(rs, e.slot).Some? {
      var i := FindRoute(rs, e.slot).value;
      var old' := Lineage(rs[i]);
      var sr := SlotRoute(e, rs[i].history + [rs[i].current]);
      assert Lineage(sr) == old' + [e];
      forall k | 0 <= k < |old'|
        ensures old'[k].generation < e.generation && old'[k].epoch.value <= e.epoch.value && old'[k].slot == e.slot
      {
        if k < |old'| - 1 {
          assert old'[|old'| - 1] == rs[i].current;
        }
      }
      assert Ordered(sr);
    }
  }

  /** Changing only the state and the gateway of a current route keeps the table ordered. */
  lemma TouchKeepsValid(rs: Routes, i: nat, state: RouteState, boot: u64)
    requires ValidRoutes(rs) && i < |rs|
    ensures ValidRoutes(rs[i := rs[i].(current := rs[i].current.(state := state, gatewayBoot := boot))])
  {
    var sr := rs[i].(current := rs[i].current.(state := state, gatewayBoot := boot));
    var h, g := Lineage(rs[i]), Lineage(sr);
    assert forall k :: 0 <= k < |h| ==>
           h[k].generation == g[k].generation && h[k].epoch == g[k].epoch && h[k].slot == g[k].slot;
    assert Ordered(sr);
  }

  lemma MarkKeepsValid(rs: Routes)
    requires ValidRoutes(rs)
    ensures ValidRoutes(MarkRevalidation(rs))
  {
    forall i | 0 <= i < |rs| ensures Ordered(Revalidated(rs[i])) {
      var h, g := Lineage(rs[i]), Lineage(Revalidated(rs[i]));
      assert forall k :: 0 <= k < |h| ==>
             h[k].generation == g[k].generation && h[k].epoch == g[k].epoch && h[k].slot == g[k].slot;
    }
  }

  // ----- runs ------------------------------------------------------------------------

  datatype RouteOp =
    | OpInstall(entry: RouteEntry)
    | OpBind(slot: SlotKey, boot: u64)
    | OpAcknowledge(slot: SlotKey, gen: u64, boot: u64)
    | OpRevalidate

  function Apply(rs: Routes, op: RouteOp): Routes {
    match op
    case OpInstall(e) => Install(rs, e)
    case OpBind(slot, boot) => BindGateway(rs, slot, boot)
    case OpAcknowledge(slot, gen, boot) => Acknowledge(rs, slot, gen, boot)
    case OpRevalidate => MarkRevalidation(rs)
  }

  function ApplyAll(rs: Routes, ops: seq<RouteOp>): Routes
    decreases |ops|
  {
    if ops == [] then rs else ApplyAll(Apply(rs, ops[0]), ops[1..])
  }

  /** The same route, whatever has become of its state and gateway. */
  predicate Keeps(e: RouteEntry, was: RouteEntry) {
    e == was.(state := e.state, gatewayBoot := e.gatewayBoot)
  }

  /** `later` continues `earlier`: same slot, no displaced route forgotten, and neither the
      generation nor the epoch of the current route has gone back. */
  ghost predicate Continues(earlier: SlotRoute, later: SlotRoute) {
    && earlier.current.slot == later.current.slot
    && earlier.history <= later.history
    && Keeps(Lineage(later)[|earlier.history|], earlier.current)
    && earlier.current.generation <= later.current.generation
    && earlier.current.epoch.value <= later.current.epoch.value
    && (earlier.current.generation == later.current.generation ==> later.history == earlier.history)
  }

  /** Every entry of `rs` is continued in `ns`. */
  ghost predicate AllContinue(rs: Routes, ns: Routes) {
    |rs| <= |ns| && forall i :: 0 <= i < |rs| ==> Continues(rs[i], ns[i])
  }

  lemma StillContinues(sr: SlotRoute)
    ensures Continues(sr, sr)
  {
  }

  lemma InstallContinues(rs: Routes, e: RouteEntry)
    requires ValidRoutes(rs)
    ensures ValidRoutes(Install(rs, e)) && AllContinue(rs, Install(rs, e))
  {
    InstallKeepsValid(rs, e);
    hide ValidRoutes;
  }

  lemma TouchContinues(rs: Routes, i: nat, state: RouteState, boot: u64)
    requires ValidRoutes(rs) && i < |rs|
    ensures var ns := rs[i := rs[i].(current := rs[i].current.(state := state, gatewayBoot := boot))];
            ValidRoutes(ns) && AllContinue(rs, ns)
  {
    TouchKeepsValid(rs, i, state, boot);
    hide ValidRoutes;
  }

  lemma MarkContinues(rs: Routes)
    requires ValidRoutes(rs)
    ensures ValidRoutes(MarkRevalidation(rs)) && AllContinue(rs, MarkRevalidation(rs))
  {
    MarkKeepsValid(rs);
    hide ValidRoutes;
  }

  lemma ApplyContinues(rs: Routes, op: RouteOp)
    requires ValidRoutes(rs)
    ensures ValidRoutes(Apply(rs, op)) && AllContinue(rs, Apply(rs, op))
  {
    hide ValidRoutes, Install, MarkRevalidation, Continues;
    forall i | 0 <= i < |rs| ensures Continues(rs[i], rs[i]) {
      StillContinues(rs[i]);
    }
    match op {
      case OpInstall(e) => InstallContinues(rs, e);
      case OpBind(slot, boot) =>
        if FindRoute(rs, slot).Some? {
          var i := FindRoute(rs, slot).value;
          TouchContinues(rs, i, rs[i].current.state, boot);
        }
      case OpAcknowledge(slot, gen, boot) =>
        if Acknowledgeable(rs, slot, gen, boot) {
          TouchContinues(rs, FindRoute(rs, slot).value, Acknowledged, boot);
        }
      case OpRevalidate => MarkContinues(rs);
    }
  }

  /** Over any run of table operations each slot keeps one entry, its displaced routes are kept
      in strictly increasing generation order, and generation and epoch never go back. */
  lemma {:induction false} RoutesOnlyAdvance(rs: Routes, ops: seq<RouteOp>)
    requires ValidRoutes(rs)
    ensures ValidRoutes(ApplyAll(rs, ops)) && AllContinue(rs, ApplyAll(rs, ops))
    decreases |ops|
  {
    hide ValidRoutes, Apply;
    if ops == [] {
      forall i | 0 <= i < |rs| ensures Continues(rs[i], rs[i]) {
        StillContinues(rs[i]);
      }
    } else {
      ApplyContinues(rs, ops[0]);
      var mid := Apply(rs, ops[0]);
      RoutesOnlyAdvance(mid, ops[1..]);
      var last := ApplyAll(mid, ops[1..]);
      forall i | 0 <= i < |rs| ensures Continues(rs[i], last[i]) {
        assert Continues(rs[i], mid[i]) && Continues(mid[i], last[i]);
      }
    }
  }

  // ----- the table as one register per slot ------------------------------------------

  /** The table entry of a slot, emptied or not. */
  function EntryOf(rs: Routes, k: SlotKey): Option<RouteEntry> {
    match FindRoute(rs, k)
    case None => None
    case Some(i) => Some(rs[i].current)
  }

  /** What one operation does to the entry of slot `k`, said without the table: a route is replaced only
      by a newer one that is not from an older epoch; a gateway binds any route that is not emptied; a
      route that awaits acknowledgement is acknowledged under its own generation by the gateway bound to
      it; and a revalidation takes every serving route back. */
  function Registered(was: Option<RouteEntry>, op: RouteOp, k: SlotKey): Option<RouteEntry> {
    match op
    case OpInstall(e) =>
      if e.slot != k || k.service == 0 then was
      else if was.None? then Some(e)
      else if was.value.generation < e.generation && was.value.epoch.value <= e.epoch.value then Some(e)
      else was
    case OpBind(slot, boot) =>
      if slot != k || was.None? || was.value.state == EmptyRoute then was else Some(was.value.(gatewayBoot := boot))
    case OpAcknowledge(slot, gen, boot) =>
      if slot != k || was.None? || was.value.generation != gen || was.value.gatewayBoot != boot then was
      else if was.value.state == Installed || was.value.state == PendingInstall
      then Some(was.value.(state := Acknowledged)) else was
    case OpRevalidate =>
      if was.None? then was
      else if was.value.state in {Acknowledged, Installed, PendingInstall}
      then Some(was.value.(state := RouteNeedsRevalidation)) else was
  }

  function RegisteredAll(was: Option<RouteEntry>, ops: seq<RouteOp>, k: SlotKey): Option<RouteEntry>
    decreases |ops|
  {
    if ops == [] then was else RegisteredAll(Registered(was, ops[0], k), ops[1..], k)
  }

  lemma SameSlots(rs: Routes, ns: Routes, k: SlotKey)
    requires |rs| == |ns| && forall i :: 0 <= i < |rs| ==> ns[i].current.slot == rs[i].current.slot
    ensures FindRoute(ns, k) == FindRoute(rs, k)
  {
  }

  lemma OneMore(rs: Routes, sr: SlotRoute, k: SlotKey)
    requires FindRoute(rs, sr.current.slot).None?
    ensures FindRoute(rs + [sr], k) == if k == sr.current.slot then Some(|rs|) else FindRoute(rs, k)
  {
    var ns := rs + [sr];
    assert forall i :: 0 <= i < |rs| ==> ns[i] == rs[i];
    assert ns[|rs|] == sr;
  }

  lemma InstallRegisters(rs: Routes, e: RouteEntry, k: SlotKey)
    ensures EntryOf(Apply(rs, OpInstall(e)), k) == Registered(EntryOf(rs, k), OpInstall(e), k)
  {
    hide FindRoute;
    if Installable(rs, e) {
      match FindRoute(rs, e.slot) {
        case None => OneMore(rs, SlotRoute(e, []), k);
        case Some(i) => SameSlots(rs, Install(rs, e), k);
      }
    }
  }

  lemma TouchRegisters(rs: Routes, op: RouteOp, k: SlotKey)
    requires !op.OpInstall?
    ensures EntryOf(Apply(rs, op), k) == Registered(EntryOf(rs, k), op, k)
  {
    hide FindRoute;
    SameSlots(rs, Apply(rs, op), k);
  }

  lemma NotEmptied(rs: Routes, k: SlotKey)
    ensures var e := EntryOf(rs, k);
            CurrentRoute(rs, k) == if e.Some? && e.value.state == EmptyRoute then None else e
  {
  }

  /** The table is one independent register per slot. */
  lemma {:induction false} TableIsRegisters(rs: Routes, ops: seq<RouteOp>, k: SlotKey)
    ensures EntryOf(ApplyAll(rs, ops), k) == RegisteredAll(EntryOf(rs, k), ops, k)
    ensures var e := EntryOf(ApplyAll(rs, ops), k);
            CurrentRoute(ApplyAll(rs, ops), k) == if e.Some? && e.value.state == EmptyRoute then None else e
    decreases |ops|
  {
    hide EntryOf, Registered, Apply, CurrentRoute;
    NotEmptied(rs, k);
    if ops != [] {
      if ops[0].OpInstall? {
        InstallRegisters(rs, ops[0].entry, k);
      } else {
        TouchRegisters(rs, ops[0], k);
      }
      TableIsRegisters(Apply(rs, ops[0]), ops[1..], k);
    }
  }

  /** The gateway that `ops` acknowledge the route of generation `gen` through. */
  ghost predicate Vouched(ops: seq<RouteOp>, k: SlotKey, gen: u64) {
    exists i :: 0 <= i < |ops| &&
      match ops[i]
      case OpAcknowledge(slot, g, _) => slot == k && g == gen
      case OpInstall(e) => e.slot == k && e.generation == gen && e.state == Acknowledged
      case _ => false
  }

  /** A route is acknowledged only if it was before, was installed so, or its own generation was
      acknowledged. */
  lemma {:induction false} AcknowledgedIsVouched(was: Option<RouteEntry>, ops: seq<RouteOp>, k: SlotKey)
    requires var e := RegisteredAll(was, ops, k); e.Some? && e.value.state == Acknowledged
    ensures var e := RegisteredAll(was, ops, k).value;
            Vouched(ops, k, e.generation)
              || (was.Some? && was.value.state == Acknowledged && was.value.generation == e.generation)
    decreases |ops|
  {
    if ops != [] {
      var next := Registered(was, ops[0], k);
      AcknowledgedIsVouched(next, ops[1..], k);
      var gen := RegisteredAll(was, ops, k).value.generation;
      if Vouched(ops[1..], k, gen) {
        var i :| 0 <= i < |ops| - 1 &&
          match ops[1..][i]
          case OpAcknowledge(slot, g, _) => slot == k && g == gen
          case OpInstall(e) => e.slot == k && e.generation == gen && e.state == Acknowledged
          case _ => false;
        assert ops[i + 1] == ops[1..][i];
      }
    }
  }

  /** After an installation attempt the current route is the new entry exactly when it was
      installable (or was already that very entry). */
  lemma InstalledIsCurrent(rs: Routes, e: RouteEntry)
    requires ValidRoutes(rs) && !e.state.EmptyRoute?
    ensures CurrentRoute(Install(rs, e), e.slot) == Some(e) <==>
            Installable(rs, e) || CurrentRoute(rs, e.slot) == Some(e)
    ensures forall slot :: slot != e.slot ==> CurrentRoute(Install(rs, e), slot) == CurrentRoute(rs, slot)
  {
    var after := Install(rs, e);
    InstallKeepsValid(rs, e);
    if Installable(rs, e) {
      var i := if FindRoute(rs, e.slot).Some? then FindRoute(rs, e.slot).value else |rs|;
      assert after[i].current == e;
      FindUnique(after, i);
    }
    forall slot | slot != e.slot ensures CurrentRoute(after, slot) == CurrentRoute(rs, slot) {
      if FindRoute(rs, slot).Some? {
        FindUnique(after, FindRoute(rs, slot).value);
      }
    }
  }

  lemma FindUnique(rs: Routes, i: nat)
    requires OneRoutePerSlot(rs) && i < |rs|
    ensures FindRoute(rs, rs[i].current.slot) == Some(i)
  {
  }
}
