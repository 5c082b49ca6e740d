/** The failure-evidence store: events keyed by id, with an index by target. */
module Evidence {
  import opened Types

  datatype Entry = Entry(event: FailureEvent, cleared: bool)

  datatype Store = Store(events: seq<Entry>, idIndex: map<u64, nat>, targetIndex: map<u64, seq<nat>>)

  const EMPTY_STORE := Store([], map[], map[])

  /** The order of receipt: by sequence number, then by wall clock. */
  predicate NotBefore(a: Timestamp, b: Timestamp) {
    a.seqNo > b.seqNo || (a.seqNo == b.seqNo && a.wallNs >= b.wallNs)
  }

  predicate Newer(ev: FailureEvent, was: FailureEvent) {
    NotBefore(ev.received, was.received)
  }

  /** Whether `publish` takes the event: a new id, or a newer observation that does not try to
      clear a confirmed failure. */
  predicate Accepts(s: Store, ev: FailureEvent) {
    ev.eventId in s.idIndex && s.idIndex[ev.eventId] < |s.events| ==>
      var was := s.events[s.idIndex[ev.eventId]].event;
      Newer(ev, was) && !(was.status.Confirmed? && ev.status.Cleared?)
  }

  function IndexOf(s: Store, t: u64): seq<nat> {
    if t in s.targetIndex then s.targetIndex[t] else []
  }

  function Publish(s: Store, ev: FailureEvent): Store {
    var entry := Entry(ev, ev.status.Cleared?);
    if ev.eventId in s.idIndex && s.idIndex[ev.eventId] < |s.events| then
      if Accepts(s, ev) then s.(events := s.events[s.idIndex[ev.eventId] := entry]) else s
    else
      Store(s.events + [entry], s.idIndex[ev.eventId := |s.events|],
            if ev.target.Some? then s.targetIndex[ev.target.value := IndexOf(s, ev.target.value) + [|s.events|]]
              else s.targetIndex)
  }

  function Clear(s: Store, id: u64): Store {
    if id in s.idIndex && s.idIndex[id] < |s.events|
    then s.(events := s.events[s.idIndex[id] := s.events[s.idIndex[id]].(cleared := true)])
    else s
  }

  // ----- queries ---------------------------------------------------------------------

  predicate Counts(e: Entry) {
    !e.cleared && !e.event.status.Cleared? && !e.event.status.StaleEvidence?
  }

  function Later(best: Option<FailureEvent>, e: Entry): Option<FailureEvent> {
    if Counts(e) && (best.None? || e.event.received.seqNo >= best.value.received.seqNo) then Some(e.event) else best
  }

  /** The linear reference: look at every event, in order. */
  function LatestScan(events: seq<Entry>, t: u64): Option<FailureEvent> {
    if events == [] then None
    else
      var n := |events| - 1;
      var best := LatestScan(events[..n], t);
      if events[n].event.target == Some(t) then Later(best, events[n]) else best
  }

  function FailuresScan(events: seq<Entry>, t: u64): seq<FailureEvent> {
    if events == [] then []
    else
      var n := |events| - 1;
      FailuresScan(events[..n], t) + (if events[n].event.target == Some(t) && Counts(events[n]) then [events[n].event]
                                      else [])
  }

  /** The same questions asked through a list of positions. */
  function LatestAt(events: seq<Entry>, at: seq<nat>): Option<FailureEvent>
    requires forall k :: 0 <= k < |at| ==> at[k] < |events|
  {
    if at == [] then None else Later(LatestAt(events, at[..|at| - 1]), events[at[|at| - 1]])
  }

  function FailuresAt(events: seq<Entry>, at: seq<nat>): seq<FailureEvent>
    requires forall k :: 0 <= k < |at| ==> at[k] < |events|
  {
    if at == [] then []
    else
      var e := events[at[|at| - 1]];
      FailuresAt(events, at[..|at| - 1]) + (if Counts(e) then [e.event] else [])
  }

  // ----- invariants ------------------------------------------------------------------

  /** The positions that hold events about `t`, in order. */
  ghost function Positions(events: seq<Entry>, t: u64): seq<nat> {
    if events == [] then []
    else
      var n := |events| - 1;
      Positions(events[..n], t) + (if events[n].event.target == Some(t) then [n] else [])
  }

  /** The id index is exact: it finds every event, and nothing else. */
  ghost predicate Keyed(s: Store) {
    && (forall id :: id in s.idIndex ==> s.idIndex[id] < |s.events| && s.events[s.idIndex[id]].event.eventId == id)
    && (forall i :: 0 <= i < |s.events| ==>
        s.events[i].event.eventId in s.idIndex && s.idIndex[s.events[i].event.eventId] == i)
  }

  /** The target index lists exactly the events about each target. */
  ghost predicate Indexed(s: Store) {
    forall t :: IndexOf(s, t) == Positions(s.events, t)
  }

  class EvidenceStore {
    var events: seq<Entry>
    var idIndex: map<u64, nat>
    var targetIndex: map<u64, seq<nat>>

    function State(): Store
      reads this
    {
      Store(events, idIndex, targetIndex)
    }

    constructor ()
      ensures State() == EMPTY_STORE
    {
      events, idIndex, targetIndex := [], map[], map[];
    }

    method PublishEvent(ev: FailureEvent) returns (accepted: bool)
      requires Keyed(State())
      modifies this
      ensures Keyed(State())
      ensures State() == Publish(old(State()), ev) && accepted == Accepts(old(State()), ev)
    {
      if ev.eventId in idIndex {
        var at := idIndex[ev.eventId];
        var was := events[at].event;
        var newer := Newer(ev, was);
        if newer && was.status.Confirmed? && ev.status.Cleared? {
          return false;
        }
        if newer {
          events := events[at := Entry(ev, ev.status.Cleared?)];
          return true;
        }
        return false;
      }
      idIndex := idIndex[ev.eventId := |events|];
      if ev.target.Some? {
        var t := ev.target.value;
        targetIndex := targetIndex[t := (if t in targetIndex then targetIndex[t] else []) + [|events|]];
      }
      events := events + [Entry(ev, ev.status.Cleared?)];
      return true;
    }

    method ClearEvent(id: u64)
      requires Keyed(State())
      modifies this
      ensures Keyed(State())
      ensures State() == Clear(old(State()), id)
    {
      if id in idIndex {
        var at := idIndex[id];
        events := events[at := events[at].(cleared := true)];
      }
    }

    /** The indexed query answers the linear question. */
    method LatestFailureFor(t: u64) returns (r: Option<FailureEvent>)
      requires Indexed(State())
      ensures r == LatestScan(events, t)
    {
      r := None;
      var at := if t in targetIndex then targetIndex[t] else [];
      assert at == IndexOf(State(), t) == Positions(events, t);
      PositionsInRange(events, t);
      for k := 0 to |at|
        invariant r == LatestAt(events, at[..k])
      {
        assert at[..k + 1][..k] == at[..k];
        var e := events[at[k]];
        if !e.cleared && !e.event.status.Cleared? && !e.event.status.StaleEvidence? {
          if r.None? || e.event.received.seqNo >= r.value.received.seqNo {
            r := Some(e.event);
          }
        }
      }
      assert at[..|at|] == at;
      IndexedAgreesWithScan(events, t);
    }

    method FailuresFor(t: u64, max: nat) returns (r: seq<FailureEvent>)
      requires Indexed(State())
      ensures var all := FailuresScan(events, t); r == if |all| > max then all[..max] else all
    {
      r := [];
      var at := if t in targetIndex then targetIndex[t] else [];
      assert at == IndexOf(State(), t) == Positions(events, t);
      PositionsInRange(events, t);
      for k := 0 to |at|
        invariant r == FailuresAt(events, at[..k])
      {
        assert at[..k + 1][..k] == at[..k];
        var e := events[at[k]];
        if !e.cleared && !e.event.status.Cleared? && !e.event.status.StaleEvidence? {
          r := r + [e.event];
        }
      }
      assert at[..|at|] == at;
      IndexedAgreesWithScan(events, t);
      if |r| > max {
        r := r[..max];
      }
    }
  }

  lemma {:induction false} PositionsInRange(events: seq<Entry>, t: u64)
    ensures forall k :: 0 <= k < |Positions(events, t)| ==> Positions(events, t)[k] < |events|
  {
    if events != [] {
      PositionsInRange(events[..|events| - 1], t);
    }
  }

  /** Walking the indexed positions is the linear scan. */
  lemma {:induction false} IndexedAgreesWithScan(events: seq<Entry>, t: u64)
    ensures forall k :: 0 <= k < |Positions(events, t)| ==> Positions(events, t)[k] < |events|
    ensures LatestAt(events, Positions(events, t)) == LatestScan(events, t)
    ensures FailuresAt(events, Positions(events, t)) == FailuresScan(events, t)
  {
    PositionsInRange(events, t);
    if events != [] {
      var n := |events| - 1;
      var at := Positions(events[..n], t);
      PositionsInRange(events[..n], t);
      IndexedAgreesWithScan(events[..n], t);
      AtPrefix(events, n, at);
      if events[n].event.target == Some(t) {
        assert (at + [n])[..|at|] == at;
      } else {
        assert at + [] == at;
      }
    }
  }

  lemma {:induction false} AtPrefix(events: seq<Entry>, n: nat, at: seq<nat>)
    requires n <= |events| && forall k :: 0 <= k < |at| ==> at[k] < n
    ensures LatestAt(events, at) == LatestAt(events[..n], at)
    ensures FailuresAt(events, at) == FailuresAt(events[..n], at)
    decreases |at|
  {
    if at != [] {
      AtPrefix(events, n, at[..|at| - 1]);
    }
  }

  /** An event that still stands against `t`. */
  predicate Stands(e: Entry, t: u64) {
    && e.event.target == Some(t)
    && !e.cleared
    && e.event.status != Cleared
    && e.event.status != StaleEvidence
  }

  /** Position `i` is the latest: no standing event was received after it, and none at the same
      sequence number was stored after it. */
  ghost predicate LastStanding(events: seq<Entry>, t: u64, i: nat) {
    && i < |events|
    && Stands(events[i], t)
    && forall j :: 0 <= j < |events| && Stands(events[j], t) ==>
         events[j].event.received.seqNo < events[i].event.received.seqNo + (if j <= i then 1 else 0)
  }

  /** The latest failure is the standing event with the greatest sequence number, and there is
      none exactly when no event stands. */
  lemma {:induction false} LatestIsGreatest(events: seq<Entry>, t: u64) returns (i: nat)
    ensures LatestScan(events, t).None? <==> forall j :: 0 <= j < |events| ==> !Stands(events[j], t)
    ensures LatestScan(events, t).Some? ==>
              LastStanding(events, t, i) && LatestScan(events, t) == Some(events[i].event)
  {
    i := 0;
    if events != [] {
      var n := |events| - 1;
      i := LatestIsGreatest(events[..n], t);
      var best := LatestScan(events[..n], t);
      if Stands(events[n], t) && (best.None? || events[n].event.received.seqNo >= best.value.received.seqNo) {
        i := n;
      }
      assert forall j :: 0 <= j < n ==> events[..n][j] == events[j];
    }
  }

  /** The listed failures of a target are its standing events. */
  lemma {:induction false} FailuresAreStanding(events: seq<Entry>, t: u64, ev: FailureEvent)
    ensures ev in FailuresScan(events, t) <==>
            exists i :: 0 <= i < |events| && Stands(events[i], t) && events[i].event == ev
  {
    if events != [] {
      var n := |events| - 1;
      FailuresAreStanding(events[..n], t, ev);
      if i :| 0 <= i < n && Stands(events[..n][i], t) && events[..n][i].event == ev {
        assert events[i] == events[..n][i];
      }
      if i :| 0 <= i < n && Stands(events[i], t) && events[i].event == ev {
        assert events[..n][i] == events[i];
      }
    }
  }

  // ----- the index under publication -------------------------------------------------

  /** Replacing an event keeps every target's positions when the target stays, and breaks the
      old target's list when it does not. */
  lemma {:induction false} PositionsUpdate(events: seq<Entry>, i: nat, e: Entry, t: u64)
    requires i < |events|
    ensures events[i].event.target == e.event.target ==> Positions(events[i := e], t) == Positions(events, t)
    ensures events[i].event.target != e.event.target ==>
              (i in Positions(events[i := e], t) <==> e.event.target == Some(t)) &&
              (i in Positions(events, t) <==> events[i].event.target == Some(t))
  {
    var n := |events| - 1;
    if i < n {
      assert events[i := e][..n] == events[..n][i := e];
      PositionsUpdate(events[..n], i, e, t);
    } else {
      assert events[i := e][..n] == events[..n];
      PositionsInRange(events[..n], t);
    }
  }

  /** Publication keeps the index exact if and only if it does not move an existing event to
      another target; a caller can see that before the call. */
  lemma PublishKeepsIndexIff(s: Store, ev: FailureEvent)
    requires Keyed(s) && Indexed(s)
    ensures Keyed(Publish(s, ev))
    ensures Indexed(Publish(s, ev)) <==>
            (ev.eventId in s.idIndex && Accepts(s, ev) ==> s.events[s.idIndex[ev.eventId]].event.target == ev.target)
  {
    PublishKeepsKeyed(s, ev);
    hide Keyed, Indexed;
    if ev.eventId !in s.idIndex {
      NewEventIndexed(s, ev);
    } else if Accepts(s, ev) {
      ReplacedEventIndexed(s, ev);
    }
  }

  lemma PublishKeepsKeyed(s: Store, ev: FailureEvent)
    requires Keyed(s)
    ensures Keyed(Publish(s, ev))
  {
  }

  lemma NewEventIndexed(s: Store, ev: FailureEvent)
    requires Keyed(s) && Indexed(s) && ev.eventId !in s.idIndex
    ensures Indexed(Publish(s, ev))
  {
    var s' := Publish(s, ev);
    assert s'.events[..|s.events|] == s.events;
    forall t ensures IndexOf(s', t) == Positions(s'.events, t) {
      assert IndexOf(s, t) == Positions(s.events, t);
      assert Positions(s.events, t) + [] == Positions(s.events, t);
    }
  }

  lemma ReplacedEventIndexed(s: Store, ev: FailureEvent)
    requires Keyed(s) && Indexed(s) && ev.eventId in s.idIndex && Accepts(s, ev)
    ensures Indexed(Publish(s, ev)) <==> s.events[s.idIndex[ev.eventId]].event.target == ev.target
  {
    hide Positions;
    var s' := Publish(s, ev);
    var i := s.idIndex[ev.eventId];
    var e := Entry(ev, ev.status.Cleared?);
    assert s'.events == s.events[i := e] && s'.targetIndex == s.targetIndex;
    if s.events[i].event.target == ev.target {
      forall t ensures IndexOf(s', t) == Positions(s'.events, t) {
        PositionsUpdate(s.events, i, e, t);
        assert IndexOf(s, t) == Positions(s.events, t);
      }
    } else {
      var t := if ev.target.Some? then ev.target.value else s.events[i].event.target.value;
      PositionsUpdate(s.events, i, e, t);
      assert IndexOf(s', t) == IndexOf(s, t) == Positions(s.events, t);
      assert Positions(s'.events, t) != Positions(s.events, t);
    }
  }

  lemma ClearKeepsIndex(s: Store, id: u64)
    requires Keyed(s) && Indexed(s)
    ensures Keyed(Clear(s, id)) && Indexed(Clear(s, id))
  {
    if id in s.idIndex {
      var i := s.idIndex[id];
      forall t ensures IndexOf(Clear(s, id), t) == Positions(Clear(s, id).events, t) {
        PositionsUpdate(s.events, i, s.events[i].(cleared := true), t);
        assert IndexOf(s, t) == Positions(s.events, t);
      }
    }
  }

  // ----- runs ------------------------------------------------------------------------

  datatype EvidenceOp = OpPublish(event: FailureEvent) | OpClear(id: u64)

  function Apply(s: Store, op: EvidenceOp): Store {
    match op
    case OpPublish(ev) => Publish(s, ev)
    case OpClear(id) => Clear(s, id)
  }

  function ApplyAll(s: Store, ops: seq<EvidenceOp>): Store
    decreases |ops|
  {
    if ops == [] then s else ApplyAll(Apply(s, ops[0]), ops[1..])
  }

  /** Re-published events keep their target. */
  ghost predicate TargetsStay(s: Store, ops: seq<EvidenceOp>)
    decreases |ops|
  {
    ops == [] ||
    (&& (ops[0].OpPublish? && ops[0].event.eventId in s.idIndex && s.idIndex[ops[0].event.eventId] < |s.events| ==>
           s.events[s.idIndex[ops[0].event.eventId]].event.target == ops[0].event.target)
     && TargetsStay(Apply(s, ops[0]), ops[1..]))
  }

  /** After any run that keeps targets, the indexed answers are those of a linear scan. */
  lemma {:induction false} QueriesAgreeAfterAnyRun(s: Store, ops: seq<EvidenceOp>, t: u64)
    requires Keyed(s) && Indexed(s) && TargetsStay(s, ops)
    ensures var r := ApplyAll(s, ops);
            && Keyed(r) && Indexed(r)
            && (forall k :: 0 <= k < |IndexOf(r, t)| ==> IndexOf(r, t)[k] < |r.events|)
            && LatestAt(r.events, IndexOf(r, t)) == LatestScan(r.events, t)
            && FailuresAt(r.events, IndexOf(r, t)) == FailuresScan(r.events, t)
    decreases |ops|
  {
    if ops == [] {
      IndexedAgreesWithScan(s.events, t);
    } else {
      match ops[0] {
        case OpPublish(ev) => PublishKeepsIndexIff(s, ev);
        case OpClear(id) => ClearKeepsIndex(s, id);
      }
      QueriesAgreeAfterAnyRun(Apply(s, ops[0]), ops[1..], t);
    }
  }

  /** Over any run, an event once stored stays stored at its place, and its receipt order
      never goes back. */
  lemma {:induction false} ReceiptsNeverGoBack(s: Store, ops: seq<EvidenceOp>, i: nat)
    requires Keyed(s) && i < |s.events|
    ensures var r := ApplyAll(s, ops);
            && i < |r.events| && r.events[i].event.eventId == s.events[i].event.eventId
            && NotBefore(r.events[i].event.received, s.events[i].event.received)
    decreases |ops|
  {
    hide Apply;
    if ops != [] {
      ReceiptStep(s, ops[0], i);
      ReceiptsNeverGoBack(Apply(s, ops[0]), ops[1..], i);
    }
  }

  lemma ReceiptStep(s: Store, op: EvidenceOp, i: nat)
    requires Keyed(s) && i < |s.events|
    ensures var r := Apply(s, op);
            && Keyed(r) && i < |r.events| && r.events[i].event.eventId == s.events[i].event.eventId
            && NotBefore(r.events[i].event.received, s.events[i].event.received)
  {
    match op {
      case OpPublish(ev) =>
        PublishKeepsKeyed(s, ev);
        ReceiptPublished(s, ev, i);
      case OpClear(id) => ClearKeepsKeyed(s, id);
    }
  }

  lemma ReceiptPublished(s: Store, ev: FailureEvent, i: nat)
    requires Keyed(s) && i < |s.events|
    ensures var r := Publish(s, ev);
            && i < |r.events| && r.events[i].event.eventId == s.events[i].event.eventId
            && NotBefore(r.events[i].event.received, s.events[i].event.received)
  {
    if ev.eventId in s.idIndex && s.idIndex[ev.eventId] == i {
      assert s.events[i].event.eventId == ev.eventId;
    }
  }

  lemma ClearKeepsKeyed(s: Store, id: u64)
    requires Keyed(s)
    ensures Keyed(Clear(s, id))
  {
  }

  // ----- clearing a confirmed failure ------------------------------------------------

  /** The `j`-th operation is a publication under `id` that the store takes. */
  ghost predicate Taken(s: Store, ops: seq<EvidenceOp>, id: u64, j: nat)
    requires j < |ops|
  {
    ops[j].OpPublish? && ops[j].event.eventId == id && Accepts(ApplyAll(s, ops[..j]), ops[j].event)
  }

  /** Neither confirms nor clears: a suspicion, or stale or unknown evidence. */
  predicate Doubts(ev: FailureEvent) {
    !ev.status.Confirmed? && !ev.status.Cleared?
  }

  lemma {:induction false} ApplySnoc(s: Store, ops: seq<EvidenceOp>, op: EvidenceOp)
    ensures ApplyAll(s, ops + [op]) == Apply(ApplyAll(s, ops), op)
    decreases |ops|
  {
    hide Apply;
    if ops == [] {
      assert ops + [op] == [op] && [op][1..] == [];
      assert ApplyAll(Apply(s, op), []) == Apply(s, op);
    } else {
      assert (ops + [op])[1..] == ops[1..] + [op];
      ApplySnoc(Apply(s, ops[0]), ops[1..], op);
    }
  }

  lemma {:induction false} KeyedOverRuns(s: Store, ops: seq<EvidenceOp>)
    requires Keyed(s)
    ensures Keyed(ApplyAll(s, ops))
    decreases |ops|
  {
    hide Keyed, Publish, Clear;
    if ops != [] {
      match ops[0] {
        case OpPublish(ev) => PublishKeepsKeyed(s, ev);
        case OpClear(id) => ClearKeepsKeyed(s, id);
      }
      KeyedOverRuns(Apply(s, ops[0]), ops[1..]);
    }
  }

  lemma StoredAfter(s: Store, op: EvidenceOp, i: nat)
    requires Keyed(s) && i < |s.events|
    ensures var r := Apply(s, op);
            && i < |r.events|
            && r.events[i].event
               == (if op.OpPublish? && op.event.eventId == s.events[i].event.eventId && Accepts(s, op.event)
                                     then op.event else s.events[i].event)
  {
    if op.OpPublish? && op.event.eventId in s.idIndex && s.idIndex[op.event.eventId] == i {
      assert s.events[i].event.eventId == op.event.eventId;
    }
  }

  /** The last publication that was taken is what is stored; without any, what was there before. */
  lemma {:induction false} StoredIsLastTaken(s: Store, ops: seq<EvidenceOp>, i: nat)
    requires Keyed(s) && i < |s.events|
    ensures var r := ApplyAll(s, ops);
            var id := s.events[i].event.eventId;
            && Keyed(r) && i < |r.events| && r.events[i].event.eventId == id
            && ((forall j :: 0 <= j < |ops| ==> !Taken(s, ops, id, j)) ==> r.events[i].event == s.events[i].event)
            && (forall b ::
                  0 <= b < |ops| && Taken(s, ops, id, b) && (forall j :: b < j < |ops| ==> !Taken(s, ops, id, j)) ==>
                  r.events[i].event == ops[b].event)
    decreases |ops|
  {
    hide Apply, Keyed, Accepts;
    KeyedOverRuns(s, ops);
    if ops != [] {
      var n := |ops| - 1;
      var init := ops[..n];
      var id := s.events[i].event.eventId;
      assert ops == init + [ops[n]];
      ApplySnoc(s, init, ops[n]);
      StoredIsLastTaken(s, init, i);
      StoredAfter(ApplyAll(s, init), ops[n], i);
      forall j | 0 <= j < n ensures Taken(s, ops, id, j) <==> Taken(s, init, id, j) {
        assert init[..j] == ops[..j];
      }
      assert Taken(s, ops, id, n) <==>
             ops[n].OpPublish? && ops[n].event.eventId == id && Accepts(ApplyAll(s, init), ops[n].event);
    }
  }

  /** As long as no publication raises a doubt, a confirmed failure stays confirmed. */
  lemma {:induction false} ConfirmedStays(s: Store, ops: seq<EvidenceOp>, i: nat)
    requires Keyed(s) && i < |s.events| && s.events[i].event.status.Confirmed?
    requires forall j :: 0 <= j < |ops| && Taken(s, ops, s.events[i].event.eventId, j) ==> !Doubts(ops[j].event)
    ensures i < |ApplyAll(s, ops).events| && ApplyAll(s, ops).events[i].event.status.Confirmed?
    decreases |ops|
  {
    if ops != [] {
      var n := |ops| - 1;
      var init := ops[..n];
      var id := s.events[i].event.eventId;
      assert ops == init + [ops[n]];
      ApplySnoc(s, init, ops[n]);
      forall j | 0 <= j < n && Taken(s, init, id, j) ensures !Doubts(init[j].event) {
        assert init[..j] == ops[..j];
        assert Taken(s, ops, id, j);
      }
      ConfirmedStays(s, init, i);
      StoredIsLastTaken(s, init, i);
      NotClearedAtOnce(ApplyAll(s, init), ops[n], i);
      assert ops[n].OpPublish? && ops[n].event.eventId == id && Accepts(ApplyAll(s, init), ops[n].event) ==>
             Taken(s, ops, id, n);
    }
  }

  lemma NotClearedAtOnce(s: Store, op: EvidenceOp, i: nat)
    requires Keyed(s) && i < |s.events| && s.events[i].event.status.Confirmed?
    ensures var r := Apply(s, op);
            && i < |r.events|
            && (r.events[i].event.status.Confirmed? ||
                (op.OpPublish? && op.event.eventId == s.events[i].event.eventId && Accepts(s, op.event)
                 && Doubts(op.event)))
  {
    StoredAfter(s, op, i);
  }

  /** The run ends the failure: `b` is the last publication taken under its id, and it clears. */
  ghost predicate ClearedBy(s: Store, ops: seq<EvidenceOp>, id: u64, b: nat)
    requires b < |ops|
  {
    Taken(s, ops, id, b) && ops[b].event.status.Cleared? && forall j :: b < j < |ops| ==> !Taken(s, ops, id, j)
  }

  lemma {:induction false} LastTaken(s: Store, ops: seq<EvidenceOp>, id: u64, n: nat) returns (b: nat)
    requires n <= |ops| && exists j :: 0 <= j < n && Taken(s, ops, id, j)
    ensures b < n && Taken(s, ops, id, b) && forall j :: b < j < n ==> !Taken(s, ops, id, j)
    decreases n
  {
    hide Taken;
    if Taken(s, ops, id, n - 1) {
      b := n - 1;
    } else {
      b := LastTaken(s, ops, id, n - 1);
    }
  }

  /** Publications turn a confirmed failure into a cleared one if and only if the last one that is
      taken clears and an earlier one that is taken neither confirmed nor cleared. */
  lemma ConfirmedClearsIff(s: Store, ops: seq<EvidenceOp>, i: nat)
    requires Keyed(s) && i < |s.events| && s.events[i].event.status.Confirmed?
    ensures var r := ApplyAll(s, ops);
            var id := s.events[i].event.eventId;
            && i < |r.events|
            && (r.events[i].event.status.Cleared? <==>
                exists a, b :: 0 <= a < b < |ops| && Taken(s, ops, id, a) && Doubts(ops[a].event)
                  && ClearedBy(s, ops, id, b))
  {
    var r := ApplyAll(s, ops);
    var id := s.events[i].event.eventId;
    StoredIsLastTaken(s, ops, i);
    if r.events[i].event.status.Cleared? {
      assert exists j :: 0 <= j < |ops| && Taken(s, ops, id, j);
      var b := LastTaken(s, ops, id, |ops|);
      assert ClearedBy(s, ops, id, b);
      var a := DoubtBefore(s, ops, i, b);
    }
  }

  lemma DoubtBefore(s: Store, ops: seq<EvidenceOp>, i: nat, b: nat) returns (a: nat)
    requires Keyed(s) && i < |s.events| && s.events[i].event.status.Confirmed?
    requires b < |ops| && Taken(s, ops, s.events[i].event.eventId, b) && ops[b].event.status.Cleared?
    ensures a < b && Taken(s, ops, s.events[i].event.eventId, a) && Doubts(ops[a].event)
  {
    var id := s.events[i].event.eventId;
    var init := ops[..b];
    StoredIsLastTaken(s, init, i);
    TakesClearing(ApplyAll(s, init), ops[b].event, i);
    if forall j :: 0 <= j < b && Taken(s, init, id, j) ==> !Doubts(init[j].event) {
      ConfirmedStays(s, init, i);
      assert false;
    }
    a :| 0 <= a < b && Taken(s, init, id, a) && Doubts(init[a].event);
    assert init[..a] == ops[..a];
  }

  lemma TakesClearing(s: Store, ev: FailureEvent, i: nat)
    requires Keyed(s) && i < |s.events| && ev.eventId == s.events[i].event.eventId && ev.status.Cleared?
             && Accepts(s, ev)
    ensures !s.events[i].event.status.Confirmed?
  {
    assert s.idIndex[ev.eventId] == i;
  }

  // ----- through the durable record --------------------------------------------------

  function EventsOf(events: seq<Entry>): (r: seq<FailureEvent>)
    ensures |r| == |events| && forall i :: 0 <= i < |r| ==> r[i] == events[i].event
  {
    if events == [] then [] else [events[0].event] + EventsOf(events[1..])
  }

  function PublishAll(s: Store, evs: seq<FailureEvent>): Store
    decreases |evs|
  {
    if evs == [] then s else PublishAll(Publish(s, evs[0]), evs[1..])
  }

  /** Distinct ids, none of them stored yet. */
  ghost predicate NewTo(index: map<u64, nat>, evs: seq<FailureEvent>) {
    && (forall i, j :: 0 <= i < j < |evs| ==> evs[i].eventId != evs[j].eventId)
    && (forall i :: 0 <= i < |evs| ==> evs[i].eventId !in index)
  }

  lemma NewToTail(index: map<u64, nat>, evs: seq<FailureEvent>, n: nat)
    requires evs != [] && NewTo(index, evs)
    ensures NewTo(index[evs[0].eventId := n], evs[1..])
  {
  }

  lemma {:induction false} RepublishedOneByOne(s: Store, evs: seq<FailureEvent>)
    requires Keyed(s) && NewTo(s.idIndex, evs)
    ensures PublishAll(s, evs).events == s.events + Fresh(evs)
    decreases |evs|
  {
    if evs == [] {
      assert s.events + [] == s.events;
    } else {
      NewToTail(s.idIndex, evs, |s.events|);
      assert evs[0].eventId !in s.idIndex;
      hide Keyed, NewTo;
      var s' := Publish(s, evs[0]);
      PublishKeepsKeyed(s, evs[0]);
      var first := [Entry(evs[0], evs[0].status.Cleared?)];
      assert s'.events == s.events + first && s'.idIndex == s.idIndex[evs[0].eventId := |s.events|];
      hide Publish;
      RepublishedOneByOne(s', evs[1..]);
      assert s.events + (first + Fresh(evs[1..])) == (s.events + first) + Fresh(evs[1..]);
    }
  }

  /** Events as they are stored when they are new. */
  function Fresh(evs: seq<FailureEvent>): seq<Entry> {
    if evs == [] then [] else [Entry(evs[0], evs[0].status.Cleared?)] + Fresh(evs[1..])
  }

  lemma {:induction false} FreshAt(evs: seq<FailureEvent>)
    ensures |Fresh(evs)| == |evs| && forall i :: 0 <= i < |evs| ==>
            Fresh(evs)[i] == Entry(evs[i], evs[i].status.Cleared?)
  {
    if evs != [] {
      FreshAt(evs[1..]);
    }
  }

  /** Saving and loading keeps the events but not the operator's `clear`: the store comes back
      as it was exactly when no event had been cleared by hand. */
  lemma ReloadRestoresIff(s: Store)
    requires Keyed(s)
    ensures PublishAll(EMPTY_STORE, EventsOf(s.events)).events == s.events <==>
            forall i :: 0 <= i < |s.events| ==> (s.events[i].cleared <==> s.events[i].event.status.Cleared?)
  {
    hide Keyed, NewTo, PublishAll, Fresh;
    var evs := EventsOf(s.events);
    EventsAreNew(s);
    EmptyIsKeyed();
    RepublishedOneByOne(EMPTY_STORE, evs);
    assert [] + Fresh(evs) == Fresh(evs);
    FreshIsStored(s.events, evs);
  }

  lemma FreshIsStored(events: seq<Entry>, evs: seq<FailureEvent>)
    requires |evs| == |events| && forall i :: 0 <= i < |evs| ==> evs[i] == events[i].event
    ensures Fresh(evs) == events <==>
            forall i :: 0 <= i < |events| ==> (events[i].cleared <==> events[i].event.status.Cleared?)
  {
    hide Fresh;
    FreshAt(evs);
    if Fresh(evs) == events {
      assert forall i :: 0 <= i < |events| ==> Fresh(evs)[i] == events[i];
    }
  }

  lemma EventsAreNew(s: Store)
    requires Keyed(s)
    ensures NewTo(EMPTY_STORE.idIndex, EventsOf(s.events))
  {
    var evs := EventsOf(s.events);
    forall i, j | 0 <= i < j < |evs| ensures evs[i].eventId != evs[j].eventId {
      assert s.idIndex[s.events[i].event.eventId] == i && s.idIndex[s.events[j].event.eventId] == j;
    }
  }

  lemma EmptyIsKeyed()
    ensures Keyed(EMPTY_STORE)
  {
  }
}
