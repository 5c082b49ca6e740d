/** Request disposition, and the coordinator's two authorization handlers. */
module Requests {
  import opened Types

  datatype Disposition =
    | NotDispatched | Dispatched | AcceptedByTarget | ConfirmedComplete
    | ResponseCommitted | FailedRequest | OutcomeUnknown

  datatype RetryAuthority = NoAuthority | SafeToRetry | DeterministicReference

  datatype RequestRecord = RequestRecord(
    request: u64, execution: u64, executionGeneration: u64, slot: SlotKey, disposition: Disposition,
    idempotent: bool, authority: RetryAuthority, externallyEffectful: bool, dispatchedAuth: Option<Authorization>)

  datatype Tracker = Tracker(records: seq<RequestRecord>, ambiguous: nat, rejectedLate: nat)

  const EMPTY_TRACKER := Tracker([], 0, 0)

  datatype LateOutcome = AcceptedLate | RejectedStale | ClassifiedAmbiguous

  ghost predicate DistinctRequests(rs: seq<RequestRecord>) {
    forall i, j :: 0 <= i < j < |rs| ==> rs[i].request != rs[j].request
  }

  // ----- the tracker -----------------------------------------------------------------

  function Find(rs: seq<RequestRecord>, id: u64): (r: Option<RequestRecord>)
    ensures r.Some? ==> r.value in rs && r.value.request == id
    ensures r.None? ==> forall x :: x in rs ==> x.request != id
  {
    if rs == [] then None else if rs[0].request == id then Some(rs[0]) else Find(rs[1..], id)
  }

  /** Overwrites the record of the same request, or appends. */
  function Record(rs: seq<RequestRecord>, x: RequestRecord): seq<RequestRecord> {
    if rs == [] then [x] else if rs[0].request == x.request then [x] + rs[1..] else [rs[0]] + Record(rs[1..], x)
  }

  lemma {:induction false} RecordThenFind(rs: seq<RequestRecord>, x: RequestRecord, id: u64)
    ensures Find(Record(rs, x), id) == if id == x.request then Some(x) else Find(rs, id)
  {
    if rs != [] && rs[0].request != x.request {
      RecordThenFind(rs[1..], x, id);
    }
  }

  function SetOutcomeUnknown(t: Tracker, id: u64): Tracker {
    match Find(t.records, id)
    case None => t.(ambiguous := t.ambiguous + 1)
    case Some(x) =>
      if x.disposition.OutcomeUnknown? then t
      else t.(records := Record(t.records, x.(disposition := OutcomeUnknown)), ambiguous := t.ambiguous + 1)
  }

  function ClassifyLate(t: Tracker, id: u64): (Tracker, LateOutcome) {
    match Find(t.records, id)
    case Some(x) =>
      if x.dispatchedAuth.Some? && x.disposition.ResponseCommitted?
      then (t.(rejectedLate := t.rejectedLate + 1), RejectedStale)
      else (t.(ambiguous := t.ambiguous + 1), ClassifiedAmbiguous)
    case None => (t.(ambiguous := t.ambiguous + 1), ClassifiedAmbiguous)
  }

  predicate RetryAllowed(x: RequestRecord) {
    if x.authority.SafeToRetry? || x.authority.DeterministicReference? then true
    else if x.externallyEffectful then false
    else x.idempotent
  }

  lemma {:induction false} RecordAt(rs: seq<RequestRecord>, x: RequestRecord, i: nat)
    requires i <= |rs| && forall k :: 0 <= k < i ==> rs[k].request != x.request
    ensures i == |rs| ==> Record(rs, x) == rs + [x] && Find(rs, x.request).None?
    ensures i < |rs| && rs[i].request == x.request ==> Record(rs, x) == rs[i := x] && Find(rs, x.request) == Some(rs[i])
    decreases i
  {
    if i != 0 {
      RecordAt(rs[1..], x, i - 1);
      assert rs == [rs[0]] + rs[1..];
    }
  }

  class RequestTracker {
    var records: seq<RequestRecord>
    var ambiguous: nat
    var rejectedLate: nat

    ghost function State(): Tracker
      reads this
    {
      Tracker(records, ambiguous, rejectedLate)
    }

    constructor ()
      ensures State() == EMPTY_TRACKER
    {
      records, ambiguous, rejectedLate := [], 0, 0;
    }

    method Position(id: u64) returns (at: nat)
      ensures at <= |records| && (forall k :: 0 <= k < at ==> records[k].request != id)
      ensures at < |records| ==> records[at].request == id
    {
      at := 0;
      while at < |records| && records[at].request != id
        invariant at <= |records| && forall k :: 0 <= k < at ==> records[k].request != id
      {
        at := at + 1;
      }
    }

    method RecordRequest(x: RequestRecord)
      requires DistinctRequests(records)
      modifies this`records
      ensures DistinctRequests(records)
      ensures records == Record(old(records), x)
    {
      var at := Position(x.request);
      RecordAt(records, x, at);
      if at < |records| {
        records := records[at := x];
      } else {
        records := records + [x];
      }
    }

    method MarkOutcomeUnknown(id: u64)
      requires DistinctRequests(records)
      modifies this`records, this`ambiguous
      ensures DistinctRequests(records)
      ensures State() == SetOutcomeUnknown(old(State()), id)
    {
      var at := Position(id);
      if at == |records| {
        ambiguous := ambiguous + 1;
        return;
      }
      RecordAt(records, records[at].(disposition := OutcomeUnknown), at);
      if !records[at].disposition.OutcomeUnknown? {
        records := records[at := records[at].(disposition := OutcomeUnknown)];
        ambiguous := ambiguous + 1;
      }
    }

    method ClassifyLateResult(id: u64) returns (outcome: LateOutcome)
      modifies this`ambiguous, this`rejectedLate
      ensures (State(), outcome) == ClassifyLate(old(State()), id)
    {
      var at := Position(id);
      if at < |records| {
        RecordAt(records, records[at], at);
        if records[at].dispatchedAuth.Some? && records[at].disposition.ResponseCommitted? {
          rejectedLate := rejectedLate + 1;
          return RejectedStale;
        }
      }
      ambiguous := ambiguous + 1;
      return ClassifiedAmbiguous;
    }
  }

  // ----- the coordinator's handlers --------------------------------------------------

  /** The tracker and the log of requests handed to a worker. */
  datatype Desk = Desk(tracker: Tracker, dispatches: seq<u64>)

  /** Messages, with what the fabric answers about the slot while each is handled. */
  datatype Message =
    | AuthorizeRequest(slot: SlotKey, request: u64, idempotent: bool, effectful: bool, current: Option<Assignment>,
                       epoch: Epoch)
    | AuthorizeResult(slot: SlotKey, auth: Authorization, withheld: bool)
    | LateResult(request: u64)

  /** Classified as unknown, and its policy forbids replay. */
  predicate Refusable(t: Tracker, id: u64) {
    Find(t.records, id).Some? &&
    var x := Find(t.records, id).value;
    x.disposition.OutcomeUnknown? && !RetryAllowed(x)
  }

  predicate Grants(d: Desk, m: Message)
    requires m.AuthorizeRequest?
  {
    m.current.Some? && m.current.value.state.Active? && !Refusable(d.tracker, m.request)
  }

  function DispatchRecord(m: Message): RequestRecord
    requires m.AuthorizeRequest? && m.current.Some?
  {
    var cur := m.current.value;
    RequestRecord(m.request, m.request, 1, m.slot, Dispatched, m.idempotent,
                  if m.idempotent then DeterministicReference else NoAuthority, m.effectful,
                  Some(Authorization(m.epoch, m.slot, cur.id, cur.generation, cur.routeGeneration,
                                     cur.engineIncarnation,
                                     m.request, m.request, SERVE, cur.workerBoot)))
  }

  const SERVE: Bytes := [115, 101, 114, 118, 101]  // "serve"

  function Grant(d: Desk, m: Message): Desk
    requires m.AuthorizeRequest? && m.current.Some?
  {
    Desk(d.tracker.(records := Record(d.tracker.records, DispatchRecord(m))), d.dispatches + [m.request])
  }

  function UnknownRecord(slot: SlotKey, auth: Authorization): RequestRecord {
    RequestRecord(auth.request, auth.execution, 1, slot, OutcomeUnknown, false, NoAuthority, false, Some(auth))
  }

  function Handle(d: Desk, m: Message): Desk {
    match m
    case AuthorizeRequest(_, _, _, _, _, _) => if Grants(d, m) then Grant(d, m) else d
    case AuthorizeResult(slot, auth, withheld) =>
      if !withheld then d
      else if Find(d.tracker.records, auth.request).Some? then d.(tracker := SetOutcomeUnknown(d.tracker, auth.request))
      else d.(tracker := d.tracker.(records := Record(d.tracker.records, UnknownRecord(slot, auth))))
    case LateResult(id) => d.(tracker := ClassifyLate(d.tracker, id).0)
  }

  function HandleAll(d: Desk, ms: seq<Message>): Desk
    decreases |ms|
  {
    if ms == [] then d else HandleAll(Handle(d, ms[0]), ms[1..])
  }

  /** A withheld result makes exactly the non-retryable requests refusable from then on. */
  lemma WithheldResultDecides(d: Desk, slot: SlotKey, auth: Authorization)
    ensures var found := Find(d.tracker.records, auth.request);
            Refusable(Handle(d, AuthorizeResult(slot, auth, true)).tracker, auth.request) <==>
            (found.Some? ==> !RetryAllowed(found.value))
  {
    var found := Find(d.tracker.records, auth.request);
    if found.Some? {
      RecordThenFind(d.tracker.records, found.value.(disposition := OutcomeUnknown), auth.request);
    } else {
      RecordThenFind(d.tracker.records, UnknownRecord(slot, auth), auth.request);
    }
  }

  /** Which requests may be replayed, by the fields of their record: those with a retry authority, and
      the idempotent ones without external effects. */
  lemma ReplayableIff(t: Tracker, id: u64)
    requires Find(t.records, id).Some? && Find(t.records, id).value.disposition.OutcomeUnknown?
    ensures var x := Find(t.records, id).value;
            !Refusable(t, id) <==>
            x.authority in {SafeToRetry, DeterministicReference} || (x.idempotent && !x.externallyEffectful)
  {
  }

  /** The request a message is about. */
  function About(m: Message): u64 {
    match m
    case AuthorizeRequest(_, id, _, _, _, _) => id
    case AuthorizeResult(_, auth, _) => auth.request
    case LateResult(id) => id
  }

  ghost predicate Unrelated(ms: seq<Message>, id: u64) {
    forall i :: 0 <= i < |ms| ==> About(ms[i]) != id || ms[i].LateResult?
  }

  lemma OtherMessage(d: Desk, m: Message, id: u64)
    requires About(m) != id || m.LateResult?
    ensures Find(Handle(d, m).tracker.records, id) == Find(d.tracker.records, id)
  {
    hide RetryAllowed;
    match m {
      case AuthorizeRequest(_, _, _, _, _, _) =>
        if Grants(d, m) {
          RecordThenFind(d.tracker.records, DispatchRecord(m), id);
        }
      case AuthorizeResult(slot, auth, withheld) =>
        var found := Find(d.tracker.records, auth.request);
        if found.Some? {
          RecordThenFind(d.tracker.records, found.value.(disposition := OutcomeUnknown), id);
        } else {
          RecordThenFind(d.tracker.records, UnknownRecord(slot, auth), id);
        }
      case LateResult(_) =>
    }
  }

  lemma {:induction false} OtherMessages(d: Desk, ms: seq<Message>, id: u64)
    requires Unrelated(ms, id)
    ensures Find(HandleAll(d, ms).tracker.records, id) == Find(d.tracker.records, id)
    decreases |ms|
  {
    hide Handle, About, Find;
    if ms != [] {
      OtherMessage(d, ms[0], id);
      OtherMessages(Handle(d, ms[0]), ms[1..], id);
    }
  }

  predicate AsksFor(m: Message, id: u64) {
    m.AuthorizeRequest? && m.request == id && m.current.Some? && m.current.value.state.Active?
  }

  /** From the messages alone: a new request is dispatched; once its result has been withheld, asking for
      it again dispatches it a second time if and only if the first asked for it as idempotent, whatever
      either said about its effects and whatever other requests were handled in between. */
  lemma ReplayedIffIdempotent(d: Desk, first: Message, xs: seq<Message>, withheld: Message, ys: seq<Message>,
                              again: Message, id: u64)
    requires Find(d.tracker.records, id).None? && AsksFor(first, id) && AsksFor(again, id)
    requires withheld.AuthorizeResult? && withheld.withheld && withheld.auth.request == id
    requires Unrelated(xs, id) && Unrelated(ys, id)
    ensures var a := Handle(d, first);
            var e := HandleAll(Handle(HandleAll(a, xs), withheld), ys);
            && a.dispatches == d.dispatches + [id]
            && Handle(e, again).dispatches == (if first.idempotent then e.dispatches + [id] else e.dispatches)
  {
    var a := Handle(d, first);
    RecordThenFind(d.tracker.records, DispatchRecord(first), id);
    OtherMessages(a, xs, id);
    var b := HandleAll(a, xs);
    var x := Find(b.tracker.records, id).value;
    RecordThenFind(b.tracker.records, x.(disposition := OutcomeUnknown), id);
    var c := Handle(b, withheld);
    OtherMessages(c, ys, id);
    var e := HandleAll(c, ys);
    hide Handle, HandleAll, Find, Record;
    AskedAgain(e, again, id);
    ReplayableIff(e.tracker, id);
  }

  lemma AskedAgain(d: Desk, m: Message, id: u64)
    requires AsksFor(m, id)
    ensures Handle(d, m).dispatches == if Refusable(d.tracker, id) then d.dispatches else d.dispatches + [id]
  {
    hide Refusable;
  }

  /** A late result is turned away as stale if and only if its request was dispatched and its response is
      committed; either way it is counted once and no record changes. */
  lemma LateIsStaleIff(t: Tracker, id: u64)
    ensures var (after, outcome) := ClassifyLate(t, id);
            && (outcome == RejectedStale <==>
                Find(t.records, id).Some? && Find(t.records, id).value.dispatchedAuth.Some?
                && Find(t.records, id).value.disposition == ResponseCommitted)
            && outcome != AcceptedLate && after.records == t.records
            && after.rejectedLate - t.rejectedLate == (if outcome == RejectedStale then 1 else 0)
            && after.ambiguous - t.ambiguous == (if outcome == ClassifiedAmbiguous then 1 else 0)
  {
  }

  // ----- the counters ----------------------------------------------------------------

  ghost predicate NoneCommitted(t: Tracker) {
    forall x :: x in t.records ==> x.disposition != ResponseCommitted
  }

  lemma {:induction false} RecordMembers(rs: seq<RequestRecord>, x: RequestRecord, y: RequestRecord)
    requires y in Record(rs, x)
    ensures y == x || y in rs
  {
    if rs != [] && rs[0].request != x.request && y != rs[0] {
      RecordMembers(rs[1..], x, y);
    }
  }

  /** A withheld result that turns a request on record unknown, for the first time since its dispatch. */
  predicate Turns(t: Tracker, m: Message) {
    m.AuthorizeResult? && m.withheld
      && Find(t.records, m.auth.request).Some? && Find(t.records, m.auth.request).value.disposition != OutcomeUnknown
  }

  function Ambiguities(d: Desk, ms: seq<Message>): nat
    decreases |ms|
  {
    if ms == [] then 0
    else (if ms[0].LateResult? || Turns(d.tracker, ms[0]) then 1 else 0) + Ambiguities(Handle(d, ms[0]), ms[1..])
  }

  lemma MessageCounts(d: Desk, m: Message)
    requires NoneCommitted(d.tracker)
    ensures var t := Handle(d, m).tracker;
            && NoneCommitted(t) && t.rejectedLate == d.tracker.rejectedLate
            && t.ambiguous == d.tracker.ambiguous + (if m.LateResult? || Turns(d.tracker, m) then 1 else 0)
  {
    hide RetryAllowed, Record;
    forall x | x in Handle(d, m).tracker.records ensures x.disposition != ResponseCommitted {
      if x !in d.tracker.records {
        match m {
          case AuthorizeRequest(_, _, _, _, _, _) => RecordMembers(d.tracker.records, DispatchRecord(m), x);
          case AuthorizeResult(slot, auth, _) =>
            var found := Find(d.tracker.records, auth.request);
            RecordMembers(d.tracker.records,
                          if found.Some? then found.value.(disposition := OutcomeUnknown)
                          else UnknownRecord(slot, auth), x);
        }
      }
    }
  }

  /** The handlers never record a response as committed, so no late result is ever turned away as stale:
      each counts as ambiguous, and so does each withheld result the first time. */
  lemma {:induction false} LateResultsAreAmbiguous(d: Desk, ms: seq<Message>)
    requires NoneCommitted(d.tracker)
    ensures var t := HandleAll(d, ms).tracker;
            && NoneCommitted(t) && t.rejectedLate == d.tracker.rejectedLate
            && t.ambiguous == d.tracker.ambiguous + Ambiguities(d, ms)
    decreases |ms|
  {
    hide Handle, NoneCommitted, Turns;
    if ms != [] {
      MessageCounts(d, ms[0]);
      LateResultsAreAmbiguous(Handle(d, ms[0]), ms[1..]);
    }
  }

  lemma {:induction false} StaysOnRecord(d: Desk, ms: seq<Message>, id: u64)
    requires Find(d.tracker.records, id).Some?
    ensures Find(HandleAll(d, ms).tracker.records, id).Some?
    decreases |ms|
  {
    hide Handle;
    if ms != [] {
      MessageKeepsRecord(d, ms[0], id);
      StaysOnRecord(Handle(d, ms[0]), ms[1..], id);
    }
  }

  lemma MessageKeepsRecord(d: Desk, m: Message, id: u64)
    requires Find(d.tracker.records, id).Some?
    ensures Find(Handle(d, m).tracker.records, id).Some?
  {
    hide RetryAllowed, Record;
    match m {
      case AuthorizeRequest(_, _, _, _, _, _) =>
        if Grants(d, m) {
          RecordThenFind(d.tracker.records, DispatchRecord(m), id);
        }
      case AuthorizeResult(slot, auth, _) =>
        var found := Find(d.tracker.records, auth.request);
        if found.Some? {
          RecordThenFind(d.tracker.records, found.value.(disposition := OutcomeUnknown), id);
        } else {
          RecordThenFind(d.tracker.records, UnknownRecord(slot, auth), id);
        }
      case LateResult(_) =>
    }
  }

  // ----- handlers that interleave ----------------------------------------------------

  /** Where a handler stands between two locks. */
  datatype Stage =
    | Asking(message: Message)   // found its request unknown; about to ask whether a retry is allowed
    | Passed(message: Message)  // passed the replay check; about to record the dispatch
    | Marking(request: u64)      // found a record; about to mark its outcome unknown
    | Noting(slot: SlotKey, auth: Authorization)  // found no record; about to add one

  /** The desk, and the handlers that are between two locks. */
  datatype Hall = Hall(desk: Desk, handlers: map<nat, Stage>)

  datatype Event = Arrive(handler: nat, message: Message) | Proceed(handler: nat)

  ghost predicate WellFormed(s: Hall) {
    forall h :: h in s.handlers ==> StageOk(s.handlers[h])
  }

  predicate StageOk(st: Stage) {
    st.Asking? || st.Passed? ==> st.message.AuthorizeRequest? && st.message.current.Some?
  }

  /** Where the first look at the tracker leads a handler, if anywhere. */
  function FirstLook(t: Tracker, m: Message): (r: Option<Stage>)
    requires !m.LateResult?
    ensures r.Some? ==> StageOk(r.value)
  {
    match m
    case AuthorizeRequest(_, id, _, _, current, _) =>
      if current.None? || !current.value.state.Active? then None
      else if Find(t.records, id).Some? && Find(t.records, id).value.disposition.OutcomeUnknown? then Some(Asking(m))
      else Some(Passed(m))
    case AuthorizeResult(slot, auth, withheld) =>
      if !withheld then None
      else match Find(t.records, auth.request)
        case None => Some(Noting(slot, auth))
        case Some(x) => if x.disposition.OutcomeUnknown? then None else Some(Marking(auth.request))
  }

  function ArriveStep(s: Hall, h: nat, m: Message): Hall {
    if h in s.handlers then s
    else if m.LateResult? then s.(desk := s.desk.(tracker := ClassifyLate(s.desk.tracker, m.request).0))
    else
      match FirstLook(s.desk.tracker, m)
      case None => s
      case Some(st) => s.(handlers := s.handlers[h := st])
  }

  function ProceedStep(s: Hall, h: nat): Hall
    requires WellFormed(s)
  {
    if h !in s.handlers then s
    else
      var gone := s.handlers - {h};
      match s.handlers[h]
      case Asking(m) =>
        var found := Find(s.desk.tracker.records, m.request);
        s.(handlers := if found.Some? && RetryAllowed(found.value) then s.handlers[h := Passed(m)] else gone)
      case Passed(m) => Hall(Grant(s.desk, m), gone)
      case Marking(id) => Hall(s.desk.(tracker := SetOutcomeUnknown(s.desk.tracker, id)), gone)
      case Noting(slot, auth) =>
        Hall(s.desk.(tracker := s.desk.tracker.(records := Record(s.desk.tracker.records, UnknownRecord(slot, auth)))),
             gone)
  }

  function Next(s: Hall, e: Event): (r: Hall)
    requires WellFormed(s)
    ensures WellFormed(r)
  {
    match e
    case Arrive(h, m) => ArriveStep(s, h, m)
    case Proceed(h) => ProceedStep(s, h)
  }

  function Run(s: Hall, es: seq<Event>): (r: Hall)
    requires WellFormed(s)
    ensures WellFormed(r)
    decreases |es|
  {
    if es == [] then s else Run(Next(s, es[0]), es[1..])
  }

  /** A handler for the request has passed its check and has not recorded yet. */
  ghost predicate Slipping(s: Hall, id: u64) {
    exists h :: h in s.handlers && s.handlers[h].Passed? && s.handlers[h].message.AuthorizeRequest? &&
                s.handlers[h].message.request == id
  }

  lemma ArriveRefused(s: Hall, h: nat, m: Message, id: u64)
    requires WellFormed(s) && Refusable(s.desk.tracker, id) && !Slipping(s, id)
    ensures var r := ArriveStep(s, h, m);
            Refusable(r.desk.tracker, id) && !Slipping(r, id) && r.desk.dispatches == s.desk.dispatches
  {
  }

  lemma ProceedRefused(s: Hall, h: nat, id: u64)
    requires WellFormed(s) && Refusable(s.desk.tracker, id) && !Slipping(s, id)
    ensures var r := ProceedStep(s, h);
            && Refusable(r.desk.tracker, id) && !Slipping(r, id)
            && s.desk.dispatches <= r.desk.dispatches && id !in r.desk.dispatches[|s.desk.dispatches|..]
  {
    if h in s.handlers {
      var rs := s.desk.tracker.records;
      match s.handlers[h] {
        case Asking(m) =>
        case Passed(m) => RecordThenFind(rs, DispatchRecord(m), id);
        case Marking(x) =>
          if Find(rs, x).Some? {
            RecordThenFind(rs, Find(rs, x).value.(disposition := OutcomeUnknown), id);
          }
        case Noting(slot, auth) => RecordThenFind(rs, UnknownRecord(slot, auth), id);
      }
    }
  }

  lemma LaterDispatches(a: seq<u64>, b: seq<u64>, c: seq<u64>, id: u64)
    requires a <= b <= c && id !in b[|a|..] && id !in c[|b|..]
    ensures a <= c && id !in c[|a|..]
  {
    assert c[|a|..] == b[|a|..] + c[|b|..];
  }

  /** Over every interleaving: a request whose outcome is unknown and whose policy forbids replay
      stays so and is never dispatched again, if no handler for it is between check and record. */
  lemma {:induction false} NeverReplayed(s: Hall, es: seq<Event>, id: u64)
    requires WellFormed(s) && Refusable(s.desk.tracker, id) && !Slipping(s, id)
    ensures var r := Run(s, es);
            && Refusable(r.desk.tracker, id) && !Slipping(r, id)
            && s.desk.dispatches <= r.desk.dispatches && id !in r.desk.dispatches[|s.desk.dispatches|..]
    decreases |es|
  {
    hide Refusable, Slipping, ArriveStep, ProceedStep, WellFormed;
    if es != [] {
      var n := Next(s, es[0]);
      match es[0] {
        case Arrive(h, m) => ArriveRefused(s, h, m, id);
        case Proceed(h) => ProceedRefused(s, h, id);
      }
      NeverReplayed(n, es[1..], id);
      LaterDispatches(s.desk.dispatches, n.desk.dispatches, Run(s, es).desk.dispatches, id);
    }
  }

  ghost predicate Replays(s: Hall, es: seq<Event>, id: u64)
    requires WellFormed(s)
  {
    var was, now := s.desk.dispatches, Run(s, es).desk.dispatches;
    |was| <= |now| && id in now[|was|..]
  }

  /** The handlers look and record under separate locks. A request that may not be replayed can be
      dispatched again if and only if a handler for it has already passed its check and has not
      recorded yet; every other interleaving is harmless. */
  lemma ReplayPossibleIff(s: Hall, id: u64)
    requires WellFormed(s) && Refusable(s.desk.tracker, id)
    ensures (exists es :: Replays(s, es, id)) <==> Slipping(s, id)
  {
    if Slipping(s, id) {
      var h :| h in s.handlers && s.handlers[h].Passed? && s.handlers[h].message.AuthorizeRequest? &&
               s.handlers[h].message.request == id;
      RunOne(s, Proceed(h));
      var now := Run(s, [Proceed(h)]).desk.dispatches;
      assert now == s.desk.dispatches + [id];
      assert Replays(s, [Proceed(h)], id);
    } else {
      forall es ensures !Replays(s, es, id) {
        NeverReplayed(s, es, id);
      }
    }
  }

  lemma RunOne(s: Hall, e: Event)
    requires WellFormed(s)
    ensures Run(s, [e]) == Next(s, e)
  {
    assert [e][1..] == [];
    assert Run(Next(s, e), []) == Next(s, e);
  }

  // ----- one at a time ---------------------------------------------------------------

  /** A message from its arrival to its end, with nothing in between. */
  function Alone(m: Message): seq<Event> {
    [Arrive(0, m), Proceed(0), Proceed(0)]
  }

  function AllAlone(ms: seq<Message>): seq<Event> {
    if ms == [] then [] else Alone(ms[0]) + AllAlone(ms[1..])
  }

  lemma {:induction false} RunConcat(s: Hall, es: seq<Event>, more: seq<Event>)
    requires WellFormed(s)
    ensures Run(s, es + more) == Run(Run(s, es), more)
    decreases |es|
  {
    hide Next, WellFormed;
    if es == [] {
      assert es + more == more;
    } else {
      assert (es + more)[1..] == es[1..] + more;
      RunConcat(Next(s, es[0]), es[1..], more);
    }
  }

  lemma AloneHandles(d: Desk, m: Message)
    ensures Run(Hall(d, map[]), Alone(m)) == Hall(Handle(d, m), map[])
  {
    hide Find, Record, RetryAllowed;
    var s := Hall(d, map[]);
    var a := Next(s, Arrive(0, m));
    var b := Next(a, Proceed(0));
    var c := Next(b, Proceed(0));
    assert Alone(m)[1..] == [Proceed(0), Proceed(0)] && [Proceed(0), Proceed(0)][1..] == [Proceed(0)];
    assert Run(b, [Proceed(0)]) == c by { RunOne(b, Proceed(0)); }
    assert map[0 := Asking(m)][0 := Passed(m)] == map[0 := Passed(m)];
  }

  /** Handling messages one at a time is one of the interleavings. */
  lemma {:induction false} HandleAllIsARun(d: Desk, ms: seq<Message>)
    ensures Run(Hall(d, map[]), AllAlone(ms)) == Hall(HandleAll(d, ms), map[])
    decreases |ms|
  {
    hide Handle, Next, Alone;
    if ms != [] {
      AloneHandles(d, ms[0]);
      RunConcat(Hall(d, map[]), Alone(ms[0]), AllAlone(ms[1..]));
      HandleAllIsARun(Handle(d, ms[0]), ms[1..]);
    }
  }

  /** So messages that are handled one at a time never replay such a request. */
  lemma OneAtATimeNeverReplays(d: Desk, ms: seq<Message>, id: u64)
    requires Refusable(d.tracker, id)
    ensures var e := HandleAll(d, ms);
            && Refusable(e.tracker, id)
            && d.dispatches <= e.dispatches && id !in e.dispatches[|d.dispatches|..]
  {
    hide Run, HandleAll, Refusable;
    HandleAllIsARun(d, ms);
    NeverReplayed(Hall(d, map[]), AllAlone(ms), id);
  }

  /** A run in which it happens: a handler passes its check, the result of the same non-retryable
      request is reported withheld, and the handler records. The request is dispatched although it was
      refusable, and its unknown outcome is overwritten. */
  lemma InterleavedHandlersReplay(d: Desk, m: Message, slot: SlotKey, auth: Authorization)
    requires m.AuthorizeRequest? && m.current.Some? && m.current.value.state.Active? && auth.request == m.request
    requires var found := Find(d.tracker.records, m.request);
             found.Some? ==> !found.value.disposition.OutcomeUnknown? && !RetryAllowed(found.value)
    ensures var between :=
            Run(Hall(d, map[]), [Arrive(0, m), Arrive(1, AuthorizeResult(slot, auth, true)), Proceed(1)]);
            && Refusable(between.desk.tracker, m.request) && Slipping(between, m.request)
            && Replays(between, [Proceed(0)], m.request)
            && !Refusable(Run(between, [Proceed(0)]).desk.tracker, m.request)
  {
    var a := Next(Hall(d, map[]), Arrive(0, m));
    var b := Next(a, Arrive(1, AuthorizeResult(slot, auth, true)));
    var c := Next(b, Proceed(1));
    var es := [Arrive(0, m), Arrive(1, AuthorizeResult(slot, auth, true)), Proceed(1)];
    assert es[1..] == [es[1], es[2]] && [es[1], es[2]][1..] == [es[2]];
    RunOne(b, Proceed(1));
    WithheldResultDecides(d, slot, auth);
    assert c.desk == Handle(d, AuthorizeResult(slot, auth, true)) && c.handlers[0] == Passed(m);
    RunOne(c, Proceed(0));
    assert Run(c, [Proceed(0)]).desk.dispatches == c.desk.dispatches + [m.request];
    RecordThenFind(c.desk.tracker.records, DispatchRecord(m), m.request);
  }
}
