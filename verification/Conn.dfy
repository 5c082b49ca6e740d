/** Request/response correlation on one connection. Requesters, the reader thread and
    `shutdown` interleave; every locked section and every unlocked flag access is one step. */
module Conn {
  import opened Types
  import opened Frames

  const MAX_PENDING: nat := 64

  /** The shared record a requester waits on. */
  datatype Cell = Cell(done: bool, response: Option<Frame>)

  /** Where a `request` call stands. */
  datatype Phase =
    | Entering     // about to look at the dead flag and the socket
    | Registering  // saw a live connection; about to enter the pending table
    | Checking     // registered; about to look again, inside the write lock
    | Sending      // saw a live connection; the frame is being written
    | Abandoning   // the send failed; about to withdraw
    | Waiting      // the frame went out; blocked until the cell is done
    | Returned(result: Option<Frame>)

  datatype Caller = Caller(msgId: u32, phase: Phase, cell: Cell)

  datatype ReaderPhase = Reading | Dying | Gone

  datatype ShutdownPhase = NotCalled | Stopped | Closed | Resolved

  datatype State = State(
    dead: bool, open: bool, reader: ReaderPhase, shutdown: ShutdownPhase,
    pending: map<u32, nat>, callers: map<nat, Caller>)

  const INITIAL := State(false, true, Reading, NotCalled, map[], map[])

  datatype Event =
    | Call(c: nat, msgId: u32) | CheckAlive(c: nat) | Register(c: nat) | CheckSocket(c: nat)
    | SendDone(c: nat, ok: bool) | Abandon(c: nat) | Collect(c: nat)
    | Deliver(frame: Frame) | ReaderStops | ReaderResolves
    | ShutdownStops | ShutdownCloses | ShutdownResolves

  predicate At(s: State, c: nat, phase: Phase) {
    c in s.callers && s.callers[c].phase == phase
  }

  function Move(s: State, c: nat, phase: Phase): State
    requires c in s.callers
  {
    s.(callers := s.callers[c := s.callers[c].(phase := phase)])
  }

  function SetCell(s: State, c: nat, cell: Cell): State
    requires c in s.callers
  {
    s.(callers := s.callers[c := s.callers[c].(cell := cell)])
  }

  /** `resolve_pending(nullopt)`: every registered cell becomes done, without a response. */
  function Resolve(s: State): State {
    s.(callers := map c | c in s.callers ::
                    if c in s.pending.Values then s.callers[c].(cell := Cell(true, None)) else s.callers[c],
       pending := map[])
  }

  function CheckAliveStep(s: State, c: nat): State {
    if !At(s, c, Entering) then s
    else Move(s, c, if s.dead || !s.open then Returned(None) else Registering)
  }

  function RegisterStep(s: State, c: nat): State {
    if !At(s, c, Registering) then s
    else if |s.pending| >= MAX_PENDING then Move(s, c, Returned(None))
    else SetCell(Move(s, c, Checking), c, Cell(false, None)).(pending := s.pending[s.callers[c].msgId := c])
  }

  function CheckSocketStep(s: State, c: nat): State {
    if !At(s, c, Checking) then s
    else Move(s, c, if s.dead || !s.open then Abandoning else Sending)
  }

  function SendDoneStep(s: State, c: nat, ok: bool): State {
    if !At(s, c, Sending) then s else Move(s, c, if ok then Waiting else Abandoning)
  }

  function AbandonStep(s: State, c: nat): State {
    if !At(s, c, Abandoning) then s
    else
      var m := s.callers[c].msgId;
      var t := Move(s, c, Returned(None));
      if m !in s.pending || s.pending[m] !in t.callers then t
      else SetCell(t, s.pending[m], t.callers[s.pending[m]].cell.(done := true)).(pending := s.pending - {m})
  }

  function CollectStep(s: State, c: nat): State {
    if !At(s, c, Waiting) || !s.callers[c].cell.done then s
    else Move(s, c, Returned(s.callers[c].cell.response)).(pending := s.pending - {s.callers[c].msgId})
  }

  function DeliverStep(s: State, f: Frame): State {
    if !s.reader.Reading? || f.msgId !in s.pending || s.pending[f.msgId] !in s.callers then s
    else SetCell(s, s.pending[f.msgId], Cell(true, Some(f)))
  }

  /** One step; an event that is not enabled leaves the state alone. */
  function Next(s: State, e: Event): State {
    match e
    case Call(c, m) =>
      if c in s.callers then s else s.(callers := s.callers[c := Caller(m, Entering, Cell(false, None))])
    case CheckAlive(c) => CheckAliveStep(s, c)
    case Register(c) => RegisterStep(s, c)
    case CheckSocket(c) => CheckSocketStep(s, c)
    case SendDone(c, ok) => SendDoneStep(s, c, ok)
    case Abandon(c) => AbandonStep(s, c)
    case Collect(c) => CollectStep(s, c)
    case Deliver(f) => DeliverStep(s, f)
    case ReaderStops =>
      if !s.reader.Reading? then s else s.(dead := true, reader := Dying)
    case ReaderResolves =>
      if !s.reader.Dying? then s else Resolve(s).(reader := Gone)
    case ShutdownStops =>
      if !s.shutdown.NotCalled? then s else s.(shutdown := Stopped)
    case ShutdownCloses =>
      if !s.shutdown.Stopped? then s else s.(shutdown := Closed, open := false)
    case ShutdownResolves =>
      if !s.shutdown.Closed? then s else Resolve(s).(shutdown := Resolved)
  }

  function Run(s: State, es: seq<Event>): State
    decreases |es|
  {
    if es == [] then s else Run(Next(s, es[0]), es[1..])
  }

  /** No request enters the table under an id that is already pending. */
  predicate DistinctIds(s: State, es: seq<Event>)
    decreases |es|
  {
    es == [] ||
    (DistinctStep(s, es[0]) && DistinctIds(Next(s, es[0]), es[1..]))
  }

  predicate DistinctStep(s: State, e: Event) {
    e.Register? && At(s, e.c, Registering) ==> s.callers[e.c].msgId !in s.pending
  }

  // ----- invariants ------------------------------------------------------------------

  predicate Registered(p: Phase) {
    p.Checking? || p.Sending? || p.Abandoning? || p.Waiting?
  }

  predicate FinallyResolved(s: State) {
    s.reader.Gone? || s.shutdown.Resolved?
  }

  predicate Answers(x: Caller) {
    && (x.cell.response.Some? ==> x.cell.response.value.msgId == x.msgId)
    && (x.phase.Returned? && x.phase.result.Some? ==> x.phase.result.value.msgId == x.msgId)
  }

  ghost predicate ListedUnderItsId(s: State, m: u32)
    requires m in s.pending
  {
    s.pending[m] in s.callers && s.callers[s.pending[m]].msgId == m
  }

  /** Holds in every run, distinct ids or not. */
  ghost predicate Correlated(s: State) {
    && (forall m :: m in s.pending ==> ListedUnderItsId(s, m))
    && (forall c :: c in s.callers ==> Answers(s.callers[c]))
  }

  ghost predicate Listed(s: State, c: nat)
    requires c in s.callers
  {
    s.callers[c].msgId in s.pending && s.pending[s.callers[c].msgId] == c
  }

  /** Needs distinct ids: until the final resolve the table lists every registered caller;
      after it, everyone whose frame was or is being sent has a finished cell. */
  ghost predicate Reachable(s: State) {
    && (!FinallyResolved(s) ==>
          forall c :: c in s.callers && Registered(s.callers[c].phase) ==> Listed(s, c))
    && (s.reader.Reading? || s.dead)
    && (s.shutdown.Closed? || s.shutdown.Resolved? ==> !s.open)
    && (FinallyResolved(s) ==>
          forall c :: c in s.callers && (s.callers[c].phase.Sending? || s.callers[c].phase.Waiting?) ==>
            s.callers[c].cell.done)
  }

  lemma PendingGrowth(p: map<u32, nat>, m: u32, c: nat)
    ensures |p[m := c]| <= |p| + 1
  {
    assert p[m := c].Keys == p.Keys + {m};
  }

  lemma PendingShrinks(p: map<u32, nat>, m: u32)
    ensures |p - {m}| <= |p|
  {
    if m in p {
      assert (p - {m}).Keys == p.Keys - {m};
    } else {
      assert p - {m} == p;
    }
  }

  /** A waiting caller that no table entry leads to. */
  ghost predicate Stranded(s: State, c: nat) {
    && At(s, c, Waiting) && !s.callers[c].cell.done
    && forall m :: m in s.pending ==> s.pending[m] != c
  }

  lemma CheckAliveKeeps(s: State, c: nat, w: nat)
    requires Correlated(s)
    ensures Correlated(CheckAliveStep(s, c))
    ensures Reachable(s) ==> Reachable(CheckAliveStep(s, c))
    ensures Stranded(s, w) ==> Stranded(CheckAliveStep(s, c), w)
  {
  }

  lemma RegisterKeeps(s: State, c: nat, w: nat)
    requires Correlated(s)
    ensures Correlated(RegisterStep(s, c))
    ensures Stranded(s, w) ==> Stranded(RegisterStep(s, c), w)
  {
    if At(s, c, Registering) && |s.pending| < MAX_PENDING {
      var t := RegisterStep(s, c);
      assert t.callers == s.callers[c := Caller(s.callers[c].msgId, Checking, Cell(false, None))];
    }
  }

  lemma RegisterReachable(s: State, c: nat)
    requires Reachable(s) && DistinctStep(s, Register(c))
    ensures Reachable(RegisterStep(s, c))
  {
    if At(s, c, Registering) && |s.pending| < MAX_PENDING {
      var t := RegisterStep(s, c);
      assert t.callers == s.callers[c := Caller(s.callers[c].msgId, Checking, Cell(false, None))];
    }
  }

  lemma CheckSocketKeeps(s: State, c: nat, w: nat)
    requires Correlated(s)
    ensures Correlated(CheckSocketStep(s, c))
    ensures Reachable(s) ==> Reachable(CheckSocketStep(s, c))
    ensures Stranded(s, w) ==> Stranded(CheckSocketStep(s, c), w)
  {
  }

  lemma SendDoneKeeps(s: State, c: nat, ok: bool, w: nat)
    requires Correlated(s)
    ensures Correlated(SendDoneStep(s, c, ok))
    ensures Reachable(s) ==> Reachable(SendDoneStep(s, c, ok))
    ensures Stranded(s, w) ==> Stranded(SendDoneStep(s, c, ok), w)
  {
  }

  lemma AbandonKeeps(s: State, c: nat)
    requires Correlated(s)
    ensures Correlated(AbandonStep(s, c))
  {
  }

  lemma AbandonStrands(s: State, c: nat, w: nat)
    requires Correlated(s) && Stranded(s, w)
    ensures Stranded(AbandonStep(s, c), w)
  {
  }

  lemma AbandonReachable(s: State, c: nat)
    requires Correlated(s) && Reachable(s)
    ensures Reachable(AbandonStep(s, c))
  {
    if At(s, c, Abandoning) && s.callers[c].msgId in s.pending {
      assert ListedUnderItsId(s, s.callers[c].msgId);
    }
  }

  lemma CollectKeeps(s: State, c: nat, w: nat)
    requires Correlated(s)
    ensures Correlated(CollectStep(s, c))
    ensures Reachable(s) ==> Reachable(CollectStep(s, c))
    ensures Stranded(s, w) ==> Stranded(CollectStep(s, c), w)
  {
  }

  lemma DeliverKeeps(s: State, f: Frame, w: nat)
    requires Correlated(s)
    ensures Correlated(DeliverStep(s, f))
    ensures Reachable(s) ==> Reachable(DeliverStep(s, f))
    ensures Stranded(s, w) ==> Stranded(DeliverStep(s, f), w)
  {
  }

  lemma ResolveWakesSenders(s: State)
    requires Reachable(s)
    ensures forall c :: c in s.callers && (s.callers[c].phase.Sending? || s.callers[c].phase.Waiting?) ==>
              Resolve(s).callers[c].cell.done
  {
    forall c | c in s.callers && (s.callers[c].phase.Sending? || s.callers[c].phase.Waiting?)
      ensures Resolve(s).callers[c].cell.done
    {
      if !FinallyResolved(s) {
        assert Listed(s, c);
        assert c in s.pending.Values;
      }
    }
  }

  lemma FlagsKeep(s: State, e: Event, w: nat)
    requires Correlated(s)
    requires e.Call? || e.ReaderStops? || e.ShutdownStops? || e.ShutdownCloses?
    ensures Correlated(Next(s, e))
    ensures Reachable(s) ==> Reachable(Next(s, e))
    ensures Stranded(s, w) ==> Stranded(Next(s, e), w)
  {
    hide CheckAliveStep, RegisterStep, CheckSocketStep, SendDoneStep, AbandonStep, CollectStep, DeliverStep, Resolve;
  }

  lemma ResolvesKeep(s: State, e: Event, w: nat)
    requires Correlated(s)
    requires e.ReaderResolves? || e.ShutdownResolves?
    ensures Correlated(Next(s, e))
    ensures Reachable(s) ==> Reachable(Next(s, e))
    ensures Stranded(s, w) ==> Stranded(Next(s, e), w)
  {
    hide CheckAliveStep, RegisterStep, CheckSocketStep, SendDoneStep, AbandonStep, CollectStep, DeliverStep;
    if Reachable(s) {
      ResolveWakesSenders(s);
    }
  }

  /** Every step keeps both invariants, the second one under distinct ids; and no step
      reaches a stranded caller. */
  lemma StepKeeps(s: State, e: Event, w: nat)
    requires Correlated(s)
    ensures Correlated(Next(s, e))
    ensures Reachable(s) && DistinctStep(s, e) ==> Reachable(Next(s, e))
    ensures Stranded(s, w) ==> Stranded(Next(s, e), w)
  {
    hide Correlated, Reachable, Stranded, CheckAliveStep, RegisterStep, CheckSocketStep, SendDoneStep,
      AbandonStep, CollectStep, DeliverStep;
    match e {
      case CheckAlive(c) => CheckAliveKeeps(s, c, w);
      case Register(c) =>
        RegisterKeeps(s, c, w);
        if Reachable(s) && DistinctStep(s, e) {
          RegisterReachable(s, c);
        }
      case CheckSocket(c) => CheckSocketKeeps(s, c, w);
      case SendDone(c, ok) => SendDoneKeeps(s, c, ok, w);
      case Abandon(c) =>
        AbandonKeeps(s, c);
        if Stranded(s, w) {
          AbandonStrands(s, c, w);
        }
        if Reachable(s) {
          AbandonReachable(s, c);
        }
      case Collect(c) => CollectKeeps(s, c, w);
      case Deliver(f) => DeliverKeeps(s, f, w);
      case ReaderResolves => ResolvesKeep(s, e, w);
      case ShutdownResolves => ResolvesKeep(s, e, w);
      case _ => FlagsKeep(s, e, w);
    }
  }

  /** Only registration grows the table, and it stops at the limit. */
  lemma TableBounded(s: State, e: Event)
    requires |s.pending| <= MAX_PENDING
    ensures |Next(s, e).pending| <= MAX_PENDING
  {
    hide RegisterStep, AbandonStep, CollectStep;
    match e {
      case Register(c) => RegisterBounded(s, c);
      case Abandon(c) => AbandonBounded(s, c);
      case Collect(c) => CollectBounded(s, c);
      case _ => OthersDoNotGrow(s, e);
    }
  }

  lemma OthersDoNotGrow(s: State, e: Event)
    requires !e.Register? && !e.Abandon? && !e.Collect?
    ensures Next(s, e).pending == s.pending || Next(s, e).pending == map[]
  {
  }

  lemma RegisterBounded(s: State, c: nat)
    requires |s.pending| <= MAX_PENDING
    ensures |RegisterStep(s, c).pending| <= MAX_PENDING
  {
    if c in s.callers {
      PendingGrowth(s.pending, s.callers[c].msgId, c);
    }
  }

  lemma AbandonBounded(s: State, c: nat)
    requires |s.pending| <= MAX_PENDING
    ensures |AbandonStep(s, c).pending| <= MAX_PENDING
  {
    if c in s.callers {
      PendingShrinks(s.pending, s.callers[c].msgId);
    }
  }

  lemma CollectBounded(s: State, c: nat)
    requires |s.pending| <= MAX_PENDING
    ensures |CollectStep(s, c).pending| <= MAX_PENDING
  {
    if c in s.callers {
      PendingShrinks(s.pending, s.callers[c].msgId);
    }
  }

  lemma {:induction false} InvariantsOverRuns(s: State, es: seq<Event>)
    requires Correlated(s) && |s.pending| <= MAX_PENDING
    ensures Correlated(Run(s, es)) && |Run(s, es).pending| <= MAX_PENDING
    ensures Reachable(s) && DistinctIds(s, es) ==> Reachable(Run(s, es))
    decreases |es|
  {
    if es != [] {
      StepKeeps(s, es[0], 0);
      TableBounded(s, es[0]);
      InvariantsOverRuns(Next(s, es[0]), es[1..]);
    }
  }

  // ----- main results ----------------------------------------------------------------

  /** In every run at most 64 requests are pending, and a returned frame answers the request. */
  lemma ResponsesAreCorrelated(es: seq<Event>, c: nat)
    ensures var s := Run(INITIAL, es);
            && |s.pending| <= MAX_PENDING
            && (c in s.callers && s.callers[c].phase.Returned? && s.callers[c].phase.result.Some? ==>
                  s.callers[c].phase.result.value.msgId == s.callers[c].msgId)
  {
    InvariantsOverRuns(INITIAL, es);
  }

  /** No lost wakeup: once the reader loop or `shutdown` has resolved the table, every waiting
      requester can return. */
  lemma NoRequesterLeftWaiting(es: seq<Event>, c: nat)
    requires DistinctIds(INITIAL, es)
    requires FinallyResolved(Run(INITIAL, es)) && At(Run(INITIAL, es), c, Waiting)
    ensures var s := Run(INITIAL, es);
            s.callers[c].cell.done && At(Next(s, Collect(c)), c, Returned(s.callers[c].cell.response))
  {
    InvariantsOverRuns(INITIAL, es);
  }

  lemma {:induction false} StrandedForever(s: State, es: seq<Event>, c: nat)
    requires Correlated(s) && Stranded(s, c)
    ensures Stranded(Run(s, es), c)
    decreases |es|
  {
    if es != [] {
      StepKeeps(s, es[0], c);
      StrandedForever(Next(s, es[0]), es[1..], c);
    }
  }

  // ----- when an id is shared --------------------------------------------------------

  /** Every table entry leads to a caller that has not withdrawn. */
  ghost predicate Held(s: State) {
    forall m :: m in s.pending ==> s.pending[m] in s.callers && Registered(s.callers[s.pending[m]].phase)
  }

  lemma MovesKeepHeld(s: State, e: Event)
    requires Held(s) && (e.CheckAlive? || e.CheckSocket? || e.SendDone? || e.Deliver? || e.Call?)
    ensures Held(Next(s, e))
  {
    hide RegisterStep, AbandonStep, CollectStep, Resolve;
    var t := Next(s, e);
    assert t.pending == s.pending;
    forall c | c in s.callers && Registered(s.callers[c].phase)
      ensures c in t.callers && Registered(t.callers[c].phase) {
    }
  }

  lemma RegisterKeepsHeld(s: State, c: nat)
    requires Held(s)
    ensures Held(RegisterStep(s, c))
  {
  }

  lemma WithdrawalsKeepHeld(s: State, e: Event)
    requires Correlated(s) && Held(s) && (e.Abandon? || e.Collect?)
    ensures Held(Next(s, e))
  {
    hide CheckAliveStep, RegisterStep, CheckSocketStep, SendDoneStep, DeliverStep, Resolve;
    forall m | m in s.pending
      ensures ListedUnderItsId(s, m) && s.pending[m] in s.callers && Registered(s.callers[s.pending[m]].phase) {
    }
  }

  lemma StepHeld(s: State, e: Event)
    requires Correlated(s) && Held(s)
    ensures Held(Next(s, e))
  {
    hide Held, CheckAliveStep, RegisterStep, CheckSocketStep, SendDoneStep, AbandonStep, CollectStep, DeliverStep,
      Resolve;
    match e {
      case Abandon(_) => WithdrawalsKeepHeld(s, e);
      case Collect(_) => WithdrawalsKeepHeld(s, e);
      case Register(c) => RegisterKeepsHeld(s, c);
      case ReaderResolves => EndingsKeepHeld(s, e);
      case ShutdownResolves => EndingsKeepHeld(s, e);
      case ReaderStops => EndingsKeepHeld(s, e);
      case ShutdownStops => EndingsKeepHeld(s, e);
      case ShutdownCloses => EndingsKeepHeld(s, e);
      case _ => MovesKeepHeld(s, e);
    }
  }

  lemma EndingsKeepHeld(s: State, e: Event)
    requires Held(s)
             && (e.ReaderResolves? || e.ShutdownResolves? || e.ReaderStops? || e.ShutdownStops? || e.ShutdownCloses?)
    ensures Held(Next(s, e))
  {
    hide CheckAliveStep, RegisterStep, CheckSocketStep, SendDoneStep, AbandonStep, CollectStep, DeliverStep;
  }

  lemma {:induction false} HeldOverRuns(s: State, es: seq<Event>)
    requires Correlated(s) && Held(s)
    ensures Held(Run(s, es))
    decreases |es|
  {
    hide Correlated, Held, Next;
    if es != [] {
      StepKeeps(s, es[0], 0);
      StepHeld(s, es[0]);
      HeldOverRuns(Next(s, es[0]), es[1..]);
    }
  }

  predicate Live(s: State) {
    !s.dead && s.open
  }

  /** The frame of the request is on its way and no answer has come. */
  predicate Undelivered(s: State, c: nat) {
    c in s.callers && OnTheWay(s.callers[c].phase) && !s.callers[c].cell.done
  }

  predicate OnTheWay(p: Phase) {
    p.Sending? || p.Waiting?
  }

  /** On a connection that is going down: whoever is still unanswered can be found through the table,
      and shares its id with nobody else on the way. */
  ghost predicate Findable(s: State) {
    && !Live(s)
    && (forall c :: Undelivered(s, c) ==> Listed(s, c))
    && (forall c, d :: c != d && Undelivered(s, c) && d in s.callers && OnTheWay(s.callers[d].phase) ==>
          s.callers[c].msgId != s.callers[d].msgId)
  }

  lemma ReachableIsFindable(s: State)
    requires Reachable(s) && !Live(s)
    ensures Findable(s)
  {
    if !FinallyResolved(s) {
      forall c, d | c != d && Undelivered(s, c) && d in s.callers && OnTheWay(s.callers[d].phase)
        ensures s.callers[c].msgId != s.callers[d].msgId
      {
        assert Listed(s, c) && Listed(s, d);
      }
    }
  }

  lemma MovesKeepFindable(s: State, e: Event)
    requires Findable(s) && (e.CheckAlive? || e.CheckSocket? || e.SendDone? || e.Deliver? || e.Call?)
    ensures Findable(Next(s, e))
  {
    hide RegisterStep, AbandonStep, CollectStep, Resolve;
    var t := Next(s, e);
    forall c | Undelivered(t, c) ensures Undelivered(s, c) && Listed(t, c) {
      assert Undelivered(s, c);
      assert Listed(s, c);
    }
  }

  lemma RegisterKeepsFindable(s: State, c0: nat)
    requires Findable(s) && DistinctStep(s, Register(c0))
    ensures Findable(RegisterStep(s, c0))
  {
    var t := RegisterStep(s, c0);
    forall c | Undelivered(t, c) ensures Undelivered(s, c) && Listed(t, c) {
      assert Undelivered(s, c);
      assert Listed(s, c);
    }
  }

  /** Nobody new is on the way, and whoever is unanswered was so before. */
  ghost predicate Dwindles(s: State, t: State, c: nat) {
    c in t.callers ==>
      && c in s.callers && t.callers[c].msgId == s.callers[c].msgId
      && (OnTheWay(t.callers[c].phase) ==> OnTheWay(s.callers[c].phase))
      && (Undelivered(t, c) ==> Undelivered(s, c) && Listed(t, c))
  }

  lemma FindableFrom(s: State, t: State)
    requires Findable(s) && !Live(t) && forall c :: Dwindles(s, t, c)
    ensures Findable(t)
  {
    forall c, d | c != d && Undelivered(t, c) && d in t.callers && OnTheWay(t.callers[d].phase)
      ensures t.callers[c].msgId != t.callers[d].msgId
    {
      assert Dwindles(s, t, c) && Dwindles(s, t, d);
    }
    forall c | Undelivered(t, c) ensures Listed(t, c) {
      assert Dwindles(s, t, c);
    }
  }

  lemma AbandonKeepsFindable(s: State, c0: nat)
    requires Findable(s) && Correlated(s)
    ensures Findable(AbandonStep(s, c0))
  {
    var t := AbandonStep(s, c0);
    forall c ensures Dwindles(s, t, c) {
      if Undelivered(s, c) {
        assert Listed(s, c);
      }
    }
    FindableFrom(s, t);
  }

  lemma CollectKeepsFindable(s: State, c0: nat)
    requires Findable(s)
    ensures Findable(CollectStep(s, c0))
  {
    var t := CollectStep(s, c0);
    forall c | Undelivered(t, c) ensures Undelivered(s, c) && Listed(t, c) {
      assert Undelivered(s, c);
      assert Listed(s, c);
    }
  }

  lemma ResolvesKeepFindable(s: State, e: Event)
    requires Findable(s)
             && (e.ReaderResolves? || e.ShutdownResolves? || e.ReaderStops? || e.ShutdownStops? || e.ShutdownCloses?)
    ensures Findable(Next(s, e))
  {
    hide CheckAliveStep, RegisterStep, CheckSocketStep, SendDoneStep, AbandonStep, CollectStep, DeliverStep;
    var t := Next(s, e);
    forall c | Undelivered(t, c) ensures Undelivered(s, c) && Listed(t, c) {
      assert Undelivered(s, c);
      assert Listed(s, c);
      assert s.pending[s.callers[c].msgId] in s.pending.Values;
    }
  }

  lemma {:induction false} FindableOverRuns(s: State, es: seq<Event>)
    requires Findable(s) && Correlated(s) && DistinctIds(s, es)
    ensures Findable(Run(s, es))
    decreases |es|
  {
    hide Findable, Correlated, DistinctStep, RegisterStep, AbandonStep, CollectStep;
    if es != [] {
      var e := es[0];
      StepKeeps(s, e, 0);
      match e {
        case Abandon(c) => AbandonKeepsFindable(s, c);
        case Collect(c) => CollectKeepsFindable(s, c);
        case Register(c) => RegisterKeepsFindable(s, c);
        case _ => OtherStepsFindable(s, e);
      }
      FindableOverRuns(Next(s, e), es[1..]);
    }
  }

  lemma OtherStepsFindable(s: State, e: Event)
    requires Findable(s) && !e.Abandon? && !e.Collect? && !e.Register?
    ensures Findable(Next(s, e))
  {
    hide Findable, Next;
    if e.CheckAlive? || e.CheckSocket? || e.SendDone? || e.Deliver? || e.Call? {
      MovesKeepFindable(s, e);
    } else {
      ResolvesKeepFindable(s, e);
    }
  }

  /** Going down, a shared id takes nobody's entry but the holder's. */
  lemma SharedIsFindable(s: State, other: nat)
    requires Findable(s) && At(s, other, Registering) && s.callers[other].msgId in s.pending
    requires !Undelivered(s, s.pending[s.callers[other].msgId])
    ensures Findable(Next(s, Register(other)))
  {
    var t := Next(s, Register(other));
    forall c | Undelivered(t, c) ensures Undelivered(s, c) && Listed(t, c) {
      assert Undelivered(s, c);
      assert Listed(s, c);
    }
  }

  lemma FindableIsNotStranded(s: State, c: nat)
    requires Findable(s)
    ensures !Stranded(s, c)
  {
    if At(s, c, Waiting) && !s.callers[c].cell.done {
      assert Undelivered(s, c);
      assert Listed(s, c);
    }
  }

  lemma RunFirst(s: State, e: Event, rest: seq<Event>)
    ensures Run(s, [e] + rest) == Run(Next(s, e), rest)
    ensures DistinctIds(s, [e] + rest) <==> DistinctStep(s, e) && DistinctIds(Next(s, e), rest)
  {
    hide Next, DistinctStep;
    assert ([e] + rest)[1..] == rest;
  }

  /** The continuation keeps ids distinct and ends with a stranded caller. */
  ghost predicate Strands(s: State, rest: seq<Event>, c: nat) {
    DistinctIds(s, rest) && Stranded(Run(s, rest), c)
  }

  lemma StrandsFirst(s: State, e: Event, rest: seq<Event>, c: nat)
    requires DistinctStep(s, e) && Strands(Next(s, e), rest, c)
    ensures Strands(s, [e] + rest, c)
  {
    hide Next, DistinctStep, Stranded;
    RunFirst(s, e, rest);
  }

  lemma StrandsAtOnce(s: State, c: nat)
    requires Stranded(s, c)
    ensures Strands(s, [], c)
  {
    hide Stranded;
  }

  /** An unlisted caller without an answer, on its way or about to send on a live connection. */
  ghost predicate Lost(s: State, c: nat) {
    && c in s.callers && !s.callers[c].cell.done && (forall m :: m in s.pending ==> s.pending[m] != c)
    && (OnTheWay(s.callers[c].phase) || (s.callers[c].phase.Checking? && Live(s)))
  }

  lemma LostIsStranded(s: State, c: nat) returns (rest: seq<Event>)
    requires Lost(s, c)
    ensures Strands(s, rest, c)
  {
    var t := Next(s, CheckSocket(c));
    var u := Next(t, SendDone(c, true));
    assert Stranded(u, c);
    hide Next, Stranded;
    StrandsAtOnce(u, c);
    StrandsFirst(t, SendDone(c, true), [], c);
    StrandsFirst(s, CheckSocket(c), [SendDone(c, true)] + [], c);
    rest := [CheckSocket(c)] + ([SendDone(c, true)] + []);
  }

  /** Caller `c` waits under id `m`, the table leads to it, and `d`, under the same id, has its answer. */
  ghost predicate Erasable(s: State, c: nat, d: nat, m: u32) {
    && c != d && At(s, c, Waiting) && !s.callers[c].cell.done && s.callers[c].msgId == m
    && (forall k :: k in s.pending && s.pending[k] == c ==> k == m)
    && d in s.callers && s.callers[d].msgId == m && s.callers[d].cell.done
    && (OnTheWay(s.callers[d].phase) || (s.callers[d].phase.Checking? && Live(s)))
  }

  lemma ErasableIsStranded(s: State, c: nat, d: nat, m: u32) returns (rest: seq<Event>)
    requires Erasable(s, c, d, m)
    ensures Strands(s, rest, c)
  {
    var t := Next(s, CheckSocket(d));
    var u := Next(t, SendDone(d, true));
    var v := Next(u, Collect(d));
    assert Stranded(v, c);
    hide Next, Stranded;
    StrandsAtOnce(v, c);
    StrandsFirst(u, Collect(d), [], c);
    StrandsFirst(t, SendDone(d, true), [Collect(d)] + [], c);
    StrandsFirst(s, CheckSocket(d), [SendDone(d, true)] + ([Collect(d)] + []), c);
    rest := [CheckSocket(d)] + ([SendDone(d, true)] + ([Collect(d)] + []));
  }

  /** Two callers under one id on a live connection: the newcomer is listed, the holder is not. */
  ghost predicate Doubled(t: State, h: nat, o: nat, m: u32) {
    && Live(t) && Correlated(t) && h != o && At(t, o, Checking) && !t.callers[o].cell.done && t.callers[o].msgId == m
    && m in t.pending && t.pending[m] == o
    && h in t.callers && t.callers[h].msgId == m && Registered(t.callers[h].phase)
  }

  /** The newcomer sends its frame and waits. */
  lemma NewcomerWaits(t: State, h: nat, o: nat, m: u32)
    requires Doubled(t, h, o, m)
    ensures var u := Next(Next(t, CheckSocket(o)), SendDone(o, true));
            && u == t.(callers := t.callers[o := t.callers[o].(phase := Waiting)])
            && (forall k :: k in t.pending && t.pending[k] == o ==> k == m)
  {
    forall k | k in t.pending && t.pending[k] == o ensures k == m {
      assert ListedUnderItsId(t, k);
    }
    assert t.callers[o := t.callers[o].(phase := Sending)][o := t.callers[o].(phase := Waiting)] ==
           t.callers[o := t.callers[o].(phase := Waiting)];
  }

  lemma AnsweredHolderStrands(t: State, h: nat, o: nat, m: u32) returns (rest: seq<Event>)
    requires Doubled(t, h, o, m) && t.callers[h].cell.done && !t.callers[h].phase.Abandoning?
    ensures Strands(t, rest, o)
  {
    NewcomerWaits(t, h, o, m);
    var u := Next(Next(t, CheckSocket(o)), SendDone(o, true));
    assert Erasable(u, o, h, m);
    var tail := ErasableIsStranded(u, o, h, m);
    hide Next, Strands;
    StrandsFirst(Next(t, CheckSocket(o)), SendDone(o, true), tail, o);
    StrandsFirst(t, CheckSocket(o), [SendDone(o, true)] + tail, o);
    rest := [CheckSocket(o)] + ([SendDone(o, true)] + tail);
  }

  /** The holder withdraws: the newcomer's entry goes, and its cell is marked. */
  lemma HolderWithdraws(t: State, h: nat, o: nat, m: u32)
    requires Doubled(t, h, o, m) && t.callers[h].phase.Abandoning?
    ensures var v := Next(Next(Next(t, CheckSocket(o)), SendDone(o, true)), Abandon(h));
            && Live(v) && v.pending == t.pending - {m} && v.callers.Keys == t.callers.Keys
            && At(v, o, Waiting) && v.callers[o].cell.done && v.callers[o].msgId == m
  {
    NewcomerWaits(t, h, o, m);
    hide CheckSocketStep, SendDoneStep;
  }

  /** `v` with one more caller, in the given phase. */
  function Joined(v: State, y: nat, m: u32, phase: Phase): State {
    v.(callers := v.callers[y := Caller(m, phase, Cell(false, None))])
  }

  lemma ThirdCallerEnters(v: State, y: nat, m: u32)
    requires Live(v) && y !in v.callers
    ensures Next(Next(v, Call(y, m)), CheckAlive(y)) == Joined(v, y, m, Registering)
  {
    hide RegisterStep, AbandonStep, CollectStep, DeliverStep, Resolve, CheckSocketStep, SendDoneStep;
    var a := Next(v, Call(y, m));
    assert a.callers[y := Caller(m, Registering, Cell(false, None))]
           == v.callers[y := Caller(m, Registering, Cell(false, None))];
  }

  lemma ThirdCallerSends(v: State, y: nat, m: u32)
    requires Live(v) && y !in v.callers && m !in v.pending && |v.pending| < MAX_PENDING
    ensures var b := Joined(v, y, m, Registering);
            var c := Next(b, Register(y));
            && DistinctStep(b, Register(y))
            && Next(Next(c, CheckSocket(y)), SendDone(y, true))
               == Joined(v, y, m, Waiting).(pending := v.pending[m := y])
  {
    hide CheckAliveStep, AbandonStep, CollectStep, DeliverStep, Resolve;
    var c := Next(Joined(v, y, m, Registering), Register(y));
    assert c == Joined(v, y, m, Checking).(pending := v.pending[m := y]);
    var d := Next(c, CheckSocket(y));
    assert d == Joined(v, y, m, Sending).(pending := v.pending[m := y]);
    assert d.callers[y := Caller(m, Waiting, Cell(false, None))]
           == v.callers[y := Caller(m, Waiting, Cell(false, None))];
  }

  /** A third caller registers under the id that has become free, sends, and waits. */
  lemma ThirdCallerWaits(v: State, y: nat, m: u32)
    requires Live(v) && y !in v.callers && m !in v.pending && |v.pending| < MAX_PENDING
    requires forall k :: k in v.pending ==> v.pending[k] in v.callers
    ensures var b := Next(Next(v, Call(y, m)), CheckAlive(y));
            var e := Next(Next(Next(b, Register(y)), CheckSocket(y)), SendDone(y, true));
            && DistinctStep(b, Register(y)) && At(e, y, Waiting) && !e.callers[y].cell.done && e.callers[y].msgId == m
            && (forall k :: k in e.pending && e.pending[k] == y ==> k == m)
            && (forall x :: x in v.callers ==> x in e.callers && e.callers[x] == v.callers[x])
  {
    hide Next;
    ThirdCallerEnters(v, y, m);
    ThirdCallerSends(v, y, m);
  }

  lemma SomeoneElse(callers: map<nat, Caller>) returns (y: nat)
    ensures y !in callers
  {
    y := Above(callers.Keys);
  }

  lemma {:induction false} Above(ids: set<nat>) returns (y: nat)
    ensures forall c :: c in ids ==> c < y
    decreases |ids|
  {
    if ids == {} {
      y := 0;
    } else {
      var c :| c in ids;
      var z := Above(ids - {c});
      y := if z > c then z else c + 1;
      forall x | x in ids ensures x < y {
        assert x == c || x in ids - {c};
      }
    }
  }

  lemma WithdrawingHolderStrands(t: State, h: nat, o: nat, m: u32) returns (rest: seq<Event>, y: nat)
    requires Doubled(t, h, o, m) && t.callers[h].phase.Abandoning? && |t.pending| <= MAX_PENDING
    ensures Strands(t, rest, y)
  {
    HolderWithdraws(t, h, o, m);
    var t1 := Next(t, CheckSocket(o));
    var t2 := Next(t1, SendDone(o, true));
    var v := Next(t2, Abandon(h));
    y := SomeoneElse(v.callers);
    RemovedSize(t.pending, m);
    forall k | k in v.pending ensures v.pending[k] in v.callers {
      assert ListedUnderItsId(t, k);
    }
    ThirdCallerWaits(v, y, m);
    var a := Next(v, Call(y, m));
    var b := Next(a, CheckAlive(y));
    var c := Next(b, Register(y));
    var d := Next(c, CheckSocket(y));
    var e := Next(d, SendDone(y, true));
    hide Next;
    assert Erasable(e, y, o, m);
    var tail := ErasableIsStranded(e, y, o, m);
    hide Strands;
    StrandsFirst(d, SendDone(y, true), tail, y);
    StrandsFirst(c, CheckSocket(y), [SendDone(y, true)] + tail, y);
    StrandsFirst(b, Register(y), [CheckSocket(y)] + ([SendDone(y, true)] + tail), y);
    StrandsFirst(a, CheckAlive(y), [Register(y)] + ([CheckSocket(y)] + ([SendDone(y, true)] + tail)), y);
    rest := [CheckAlive(y)] + ([Register(y)] + ([CheckSocket(y)] + ([SendDone(y, true)] + tail)));
    StrandsFirst(v, Call(y, m), rest, y);
    rest := [Call(y, m)] + rest;
    StrandsFirst(t2, Abandon(h), rest, y);
    rest := [Abandon(h)] + rest;
    StrandsFirst(t1, SendDone(o, true), rest, y);
    rest := [SendDone(o, true)] + rest;
    StrandsFirst(t, CheckSocket(o), rest, y);
    rest := [CheckSocket(o)] + rest;
  }

  lemma RemovedSize(p: map<u32, nat>, m: u32)
    requires m in p
    ensures |p - {m}| == |p| - 1
  {
    assert (p - {m}).Keys == p.Keys - {m};
  }

  lemma SharedStrands(s: State, other: nat) returns (rest: seq<Event>, c: nat)
    requires Correlated(s) && Reachable(s) && Held(s) && |s.pending| < MAX_PENDING
    requires At(s, other, Registering) && s.callers[other].msgId in s.pending
    requires Live(s) || Undelivered(s, s.pending[s.callers[other].msgId])
    ensures Strands(Next(s, Register(other)), rest, c)
  {
    var m := s.callers[other].msgId;
    var h := s.pending[m];
    var t := Next(s, Register(other));
    assert ListedUnderItsId(s, m) && h != other;
    StepKeeps(s, Register(other), h);
    AfterSharing(s, other);
    hide Next;
    if Lost(t, h) {
      rest := LostIsStranded(t, h);
      c := h;
    } else if t.callers[h].phase.Abandoning? {
      rest, c := WithdrawingHolderStrands(t, h, other, m);
    } else {
      rest := AnsweredHolderStrands(t, h, other, m);
      c := other;
    }
  }

  lemma AfterSharing(s: State, other: nat)
    requires Correlated(s) && Held(s) && |s.pending| < MAX_PENDING && At(s, other, Registering)
             && s.callers[other].msgId in s.pending
    ensures var m := s.callers[other].msgId;
            var h := s.pending[m];
            var t := Next(s, Register(other));
            && h in s.callers && h != other && h in t.callers && t.callers[h] == s.callers[h]
            && |t.pending| <= MAX_PENDING
            && t.dead == s.dead && t.open == s.open && t.pending == s.pending[m := other]
            && (forall k :: k in t.pending ==> t.pending[k] != h)
            && (Live(s) && Correlated(t) ==> Doubled(t, h, other, m))
  {
    hide CheckAliveStep, CheckSocketStep, SendDoneStep, AbandonStep, CollectStep, DeliverStep, Resolve;
    var m := s.callers[other].msgId;
    var h := s.pending[m];
    var t := Next(s, Register(other));
    assert t.callers == s.callers[other := Caller(m, Checking, Cell(false, None))];
    assert ListedUnderItsId(s, m);
    forall k | k in t.pending ensures t.pending[k] != h {
      if k != m {
        assert ListedUnderItsId(s, k);
      }
    }
    assert t.pending.Keys == s.pending.Keys;
  }

  /** Distinct ids are needed, and this is how much. In any run with distinct ids so far, let a caller
      enter the table under an id that is pending. Some continuation, itself with distinct ids, then
      strands a caller if and only if the connection is still live, or the frame of the caller that
      held the entry is on its way and unanswered. Whoever is stranded stays so in every continuation,
      shutdown included. */
  lemma SharedIdStrandsIff(es: seq<Event>, other: nat)
    requires DistinctIds(INITIAL, es)
    requires var s := Run(INITIAL, es);
             At(s, other, Registering) && s.callers[other].msgId in s.pending && |s.pending| < MAX_PENDING
    ensures var s := Run(INITIAL, es);
            (exists rest, c :: Strands(Next(s, Register(other)), rest, c)) <==>
            Live(s) || Undelivered(s, s.pending[s.callers[other].msgId])
  {
    var s := Run(INITIAL, es);
    InvariantsOverRuns(INITIAL, es);
    HeldOverRuns(INITIAL, es);
    hide Run, DistinctIds, Correlated, Reachable, Held, Next, Undelivered, Stranded;
    var t := Next(s, Register(other));
    if Live(s) || Undelivered(s, s.pending[s.callers[other].msgId]) {
      var rest, c := SharedStrands(s, other);
    } else {
      ReachableIsFindable(s);
      SharedIsFindable(s, other);
      StepKeeps(s, Register(other), 0);
      forall rest, c ensures !Strands(t, rest, c) {
        if DistinctIds(t, rest) {
          FindableOverRuns(t, rest);
          FindableIsNotStranded(Run(t, rest), c);
        }
      }
    }
  }

  // ----- what a caller gets ----------------------------------------------------------

  /** The event reaches the cell of caller `c`: a frame read under its entry, or a resolve of the table. */
  ghost predicate Hits(s: State, e: Event, c: nat) {
    match e
    case Deliver(f) => s.reader.Reading? && f.msgId in s.pending && s.pending[f.msgId] == c
    case ReaderResolves => s.reader.Dying? && c in s.pending.Values
    case ShutdownResolves => s.shutdown.Closed? && c in s.pending.Values
    case _ => false
  }

  /** What such an event has for the caller: the frame, or nothing. */
  function Brings(e: Event): Option<Frame> {
    if e.Deliver? then Some(e.frame) else None
  }

  /** The last event of the run that reached the caller's cell. */
  ghost function LastHit(es: seq<Event>, c: nat): (r: Option<nat>)
    ensures r.Some? ==> r.value < |es| && Hits(Run(INITIAL, es[..r.value]), es[r.value], c)
    ensures forall j :: 0 <= j < |es| && (r.Some? ==> r.value < j) ==> !Hits(Run(INITIAL, es[..j]), es[j], c)
  {
    if es == [] then None
    else
      var n := |es| - 1;
      if Hits(Run(INITIAL, es[..n]), es[n], c) then Some(n)
      else
        assert forall j :: 0 <= j < n ==> es[..n][..j] == es[..j];
        LastHit(es[..n], c)
  }

  lemma LastHitAppend(es: seq<Event>, e: Event, c: nat)
    ensures LastHit(es + [e], c) == if Hits(Run(INITIAL, es), e, c) then Some(|es|) else LastHit(es, c)
  {
    hide Hits, Run;
    assert (es + [e])[..|es|] == es;
  }

  function CellFor(es: seq<Event>, hit: Option<nat>): Cell
    requires hit.Some? ==> hit.value < |es|
  {
    if hit.None? then Cell(false, None) else Cell(true, Brings(es[hit.value]))
  }

  /** Not registered yet. */
  predicate Outside(s: State, c: nat) {
    c in s.callers ==> s.callers[c].phase.Entering? || s.callers[c].phase.Registering?
  }

  /** Registered, and still on the way to an answer. */
  predicate Expecting(s: State, c: nat) {
    c in s.callers && (OnTheWay(s.callers[c].phase) || (s.callers[c].phase.Checking? && Live(s)))
  }

  /** After the final resolve nobody whose frame went out is in the table any more. */
  ghost predicate TableDone(s: State) {
    FinallyResolved(s) ==>
      forall m :: m in s.pending && s.pending[m] in s.callers ==> !OnTheWay(s.callers[s.pending[m]].phase)
  }

  ghost predicate Good(s: State) {
    Correlated(s) && Reachable(s) && Held(s) && TableDone(s)
  }

  lemma MovesTableDone(s: State, e: Event)
    requires Good(s) && (e.CheckAlive? || e.CheckSocket? || e.SendDone? || e.Deliver? || e.Call? || e.Collect?)
    ensures TableDone(Next(s, e))
  {
    hide RegisterStep, AbandonStep, Resolve, Correlated, Held;
  }

  lemma RegisterTableDone(s: State, c: nat)
    requires Good(s)
    ensures TableDone(RegisterStep(s, c))
  {
    hide Reachable, Held;
    if At(s, c, Registering) && |s.pending| < MAX_PENDING {
      forall m | m in s.pending ensures ListedUnderItsId(s, m) {
      }
    }
  }

  lemma AbandonTableDone(s: State, c: nat)
    requires Good(s)
    ensures TableDone(AbandonStep(s, c))
  {
    hide Reachable, Held, Correlated;
  }

  lemma EndingsTableDone(s: State, e: Event)
    requires Good(s)
    requires e.ReaderResolves? || e.ShutdownResolves? || e.ReaderStops? || e.ShutdownStops? || e.ShutdownCloses?
    ensures TableDone(Next(s, e))
  {
    hide CheckAliveStep, RegisterStep, CheckSocketStep, SendDoneStep, AbandonStep, CollectStep, DeliverStep;
  }

  lemma StepGood(s: State, e: Event)
    requires Good(s) && DistinctStep(s, e)
    ensures Good(Next(s, e))
  {
    StepKeeps(s, e, 0);
    StepHeld(s, e);
    hide Correlated, Reachable, Held, TableDone, RegisterStep, AbandonStep;
    match e {
      case Register(c) => RegisterTableDone(s, c);
      case Abandon(c) => AbandonTableDone(s, c);
      case ReaderResolves => EndingsTableDone(s, e);
      case ShutdownResolves => EndingsTableDone(s, e);
      case ReaderStops => EndingsTableDone(s, e);
      case ShutdownStops => EndingsTableDone(s, e);
      case ShutdownCloses => EndingsTableDone(s, e);
      case _ => MovesTableDone(s, e);
    }
  }

  lemma OutsideIsUnhit(s: State, e: Event, c: nat)
    requires Good(s) && Outside(s, c)
    ensures !Hits(s, e, c)
  {
    hide Reachable, TableDone;
    forall m | m in s.pending ensures s.pending[m] != c {
      assert ListedUnderItsId(s, m);
    }
  }

  /** What one step does to the cell of a caller that is on the way, or becomes so. */
  ghost predicate CellStep(s: State, e: Event, c: nat) {
    var t := Next(s, e);
    c in t.callers && c in s.callers &&
    (if Hits(s, e, c) then t.callers[c].cell == Cell(true, Brings(e)) else t.callers[c].cell == s.callers[c].cell)
  }

  lemma DeliverCell(s: State, f: Frame, c: nat)
    requires Correlated(s) && c in s.callers
    ensures CellStep(s, Deliver(f), c)
  {
    if f.msgId in s.pending {
      assert ListedUnderItsId(s, f.msgId);
    }
  }

  lemma EndingsCell(s: State, e: Event, c: nat)
    requires c in s.callers
    requires e.ReaderResolves? || e.ShutdownResolves? || e.ReaderStops? || e.ShutdownStops? || e.ShutdownCloses?
    ensures CellStep(s, e, c)
  {
    hide CheckAliveStep, RegisterStep, CheckSocketStep, SendDoneStep, AbandonStep, CollectStep, DeliverStep;
  }

  lemma MovesCell(s: State, e: Event, c: nat)
    requires c in s.callers && (e.CheckAlive? || e.CheckSocket? || e.SendDone? || e.Call? || e.Collect?)
    ensures CellStep(s, e, c)
  {
    hide RegisterStep, AbandonStep, DeliverStep, Resolve;
  }

  /** Withdrawing touches nobody who is on the way. */
  lemma AbandonCell(s: State, x: nat, c: nat)
    requires Good(s) && Expecting(s, c)
    ensures CellStep(s, Abandon(x), c)
  {
    hide Held;
    if At(s, x, Abandoning) && s.callers[x].msgId in s.pending {
      var m := s.callers[x].msgId;
      assert ListedUnderItsId(s, m);
      if !FinallyResolved(s) {
        assert Registered(s.callers[x].phase);
        assert Listed(s, x);
      }
    }
  }

  lemma ExpectingStep(s: State, e: Event, c: nat)
    requires Good(s) && Expecting(s, c)
    ensures e != Register(c) ==> CellStep(s, e, c)
    ensures e == Register(c) ==> Next(s, e) == s
  {
    match e {
      case Deliver(f) =>
        hide CellStep, Good, Expecting, Reachable, Held, TableDone;
        DeliverCell(s, f, c);
      case Abandon(x) =>
        hide CellStep;
        AbandonCell(s, x, c);
      case Register(x) =>
        hide Good;
      case CheckAlive(_) => MovesCell(s, e, c);
      case CheckSocket(_) => MovesCell(s, e, c);
      case SendDone(_, _) => MovesCell(s, e, c);
      case Call(_, _) => MovesCell(s, e, c);
      case Collect(_) => MovesCell(s, e, c);
      case _ => EndingsCell(s, e, c);
    }
  }

  /** The calls' own steps: from which phase to which, and when. */
  predicate Shifts(s: State, e: Event, c: nat, phase: Phase)
    requires c in s.callers
  {
    match s.callers[c].phase
    case Entering => e == CheckAlive(c) && phase == (if Live(s) then Registering else Returned(None))
    case Registering => e == Register(c) && phase == (if |s.pending| < MAX_PENDING then Checking else Returned(None))
    case Checking => e == CheckSocket(c) && phase == (if Live(s) then Sending else Abandoning)
    case Sending => e.SendDone? && e.c == c && phase == (if e.ok then Waiting else Abandoning)
    case Abandoning => e == Abandon(c) && phase == Returned(None)
    case Waiting => e == Collect(c) && s.callers[c].cell.done && phase == Returned(s.callers[c].cell.response)
    case Returned(_) => false
  }

  ghost predicate PhaseStep(s: State, t: State, e: Event, c: nat) {
    && (c in s.callers ==>
          c in t.callers && (t.callers[c].phase == s.callers[c].phase || Shifts(s, e, c, t.callers[c].phase)))
    && (c in t.callers && c !in s.callers ==> e.Call? && e.c == c && t.callers[c].phase.Entering?)
  }

  lemma OwnPhases(s: State, e: Event, c: nat)
    requires e.CheckAlive? || e.CheckSocket? || e.SendDone? || e.Call? || e.Collect?
    ensures PhaseStep(s, Next(s, e), e, c)
  {
    hide RegisterStep, AbandonStep, DeliverStep, Resolve;
  }

  lemma TablePhases(s: State, x: nat, c: nat)
    ensures PhaseStep(s, RegisterStep(s, x), Register(x), c)
    ensures PhaseStep(s, AbandonStep(s, x), Abandon(x), c)
  {
  }

  lemma OtherPhases(s: State, e: Event, c: nat)
    requires !(e.CheckAlive? || e.CheckSocket? || e.SendDone? || e.Call? || e.Collect? || e.Register? || e.Abandon?)
    ensures PhaseStep(s, Next(s, e), e, c)
  {
    hide CheckAliveStep, RegisterStep, CheckSocketStep, SendDoneStep, AbandonStep, CollectStep;
  }

  /** No step moves a call but its own, and those only as listed. */
  lemma PhasesMove(s: State, e: Event, c: nat)
    ensures PhaseStep(s, Next(s, e), e, c)
  {
    hide PhaseStep, CheckAliveStep, RegisterStep, CheckSocketStep, SendDoneStep, AbandonStep, CollectStep, DeliverStep;
    match e {
      case Register(x) => TablePhases(s, x, c);
      case Abandon(x) => TablePhases(s, x, c);
      case CheckAlive(_) => OwnPhases(s, e, c);
      case CheckSocket(_) => OwnPhases(s, e, c);
      case SendDone(_, _) => OwnPhases(s, e, c);
      case Call(_, _) => OwnPhases(s, e, c);
      case Collect(_) => OwnPhases(s, e, c);
      case _ => OtherPhases(s, e, c);
    }
  }

  lemma LiveFrom(s: State, e: Event)
    requires Live(Next(s, e))
    ensures Live(s)
  {
    hide CheckAliveStep, RegisterStep, CheckSocketStep, SendDoneStep, AbandonStep, CollectStep, DeliverStep;
    FlagsStay(s, e);
  }

  lemma FlagsStay(s: State, e: Event)
    ensures s.dead ==> Next(s, e).dead
    ensures !s.open ==> !Next(s, e).open
  {
  }

  /** A caller on the way has come from there, or has just registered. */
  lemma ExpectingFrom(s: State, e: Event, c: nat)
    requires Expecting(Next(s, e), c)
    ensures Expecting(s, c) ||
            (e == Register(c) && At(s, c, Registering) && Next(s, e).callers[c].cell == Cell(false, None))
  {
    PhasesMove(s, e, c);
    if e == Register(c) && At(s, c, Registering) {
      hide CheckAliveStep, CheckSocketStep, SendDoneStep, AbandonStep, CollectStep, DeliverStep, Resolve;
    } else {
      hide Next;
      if Live(Next(s, e)) {
        LiveFrom(s, e);
      }
    }
  }

  lemma OutsideFrom(s: State, e: Event, c: nat)
    requires Outside(Next(s, e), c)
    ensures Outside(s, c)
  {
    hide Next;
    PhasesMove(s, e, c);
  }

  /** The cell of everyone on the way holds what the last event that reached it brought. */
  ghost predicate Delivered(es: seq<Event>, c: nat) {
    var s := Run(INITIAL, es);
    && (Outside(s, c) ==> LastHit(es, c).None?)
    && (Expecting(s, c) ==> s.callers[c].cell == CellFor(es, LastHit(es, c)))
  }

  lemma {:induction false} RunAppend(s: State, es: seq<Event>, e: Event)
    ensures Run(s, es + [e]) == Next(Run(s, es), e)
    ensures DistinctIds(s, es + [e]) <==> DistinctIds(s, es) && DistinctStep(Run(s, es), e)
    decreases |es|
  {
    hide Next, DistinctStep;
    if es == [] {
      assert es + [e] == [e] && [e][1..] == [];
      assert Run(Next(s, e), []) == Next(s, e) && DistinctIds(Next(s, e), []);
    } else {
      assert (es + [e])[1..] == es[1..] + [e];
      RunAppend(Next(s, es[0]), es[1..], e);
    }
  }

  lemma DeliveredStep(es: seq<Event>, e: Event, c: nat)
    requires Good(Run(INITIAL, es)) && Delivered(es, c) && DistinctStep(Run(INITIAL, es), e)
    ensures Delivered(es + [e], c)
  {
    hide Next, Run, Good, Hits, DistinctIds, DistinctStep;
    var s := Run(INITIAL, es);
    RunAppend(INITIAL, es, e);
    LastHitAppend(es, e, c);
    if Outside(Next(s, e), c) {
      OutsideFrom(s, e, c);
      OutsideIsUnhit(s, e, c);
    }
    if Expecting(Next(s, e), c) {
      ExpectingFrom(s, e, c);
      if Expecting(s, c) {
        ExpectingStep(s, e, c);
        NotHitByRegister(s, c);
      } else {
        OutsideIsUnhit(s, e, c);
      }
    }
  }

  lemma NotHitByRegister(s: State, c: nat)
    ensures !Hits(s, Register(c), c)
  {
  }

  lemma {:induction false} RunsDeliver(es: seq<Event>, c: nat)
    requires DistinctIds(INITIAL, es)
    ensures Good(Run(INITIAL, es)) && Delivered(es, c)
    decreases |es|
  {
    if es != [] {
      var init, e := es[..|es| - 1], es[|es| - 1];
      assert es == init + [e];
      RunAppend(INITIAL, init, e);
      RunsDeliver(init, c);
      hide Next, Run, Good, Delivered, DistinctIds;
      DeliveredStep(init, e, c);
      StepGood(Run(INITIAL, init), e);
    }
  }

  /** How a call came to withdraw: the connection was down when it looked again, or the send failed. */
  ghost predicate GaveUp(es: seq<Event>, c: nat) {
    exists i: nat :: i < |es| && GivesUp(Run(INITIAL, es[..i]), es[i], c)
  }

  predicate GivesUp(s: State, e: Event, c: nat) {
    || (e == CheckSocket(c) && At(s, c, Checking) && !Live(s))
    || (e == SendDone(c, false) && At(s, c, Sending))
  }

  lemma {:induction false} AbandoningGaveUp(es: seq<Event>, c: nat)
    requires At(Run(INITIAL, es), c, Abandoning)
    ensures GaveUp(es, c)
    decreases |es|
  {
    if es != [] {
      var n := |es| - 1;
      var init, e := es[..n], es[n];
      assert es == init + [e];
      RunAppend(INITIAL, init, e);
      var s := Run(INITIAL, init);
      AbandoningFrom(s, e, c);
      hide Next, Run, At, GivesUp;
      if At(s, c, Abandoning) {
        AbandoningGaveUp(init, c);
        var i: nat :| i < |init| && GivesUp(Run(INITIAL, init[..i]), init[i], c);
        assert init[..i] == es[..i];
      }
    }
  }

  lemma AbandoningFrom(s: State, e: Event, c: nat)
    requires At(Next(s, e), c, Abandoning)
    ensures At(s, c, Abandoning) || GivesUp(s, e, c)
  {
    hide Next;
    PhasesMove(s, e, c);
  }

  /** The event at which the call returned, and what it returned. */
  ghost predicate ReturnsAt(es: seq<Event>, c: nat, k: nat, result: Option<Frame>)
    requires k < |es|
  {
    var s := Run(INITIAL, es[..k]);
    var before := es[..k];
    && c in s.callers && !s.callers[c].phase.Returned?
    && match es[k]
       case CheckAlive(x) => x == c && At(s, c, Entering) && !Live(s) && result.None?
       case Register(x) => x == c && At(s, c, Registering) && |s.pending| >= MAX_PENDING && result.None?
       case Abandon(x) => x == c && At(s, c, Abandoning) && GaveUp(before, c) && result.None?
       case Collect(x) =>
         && x == c && At(s, c, Waiting) && LastHit(before, c).Some?
         && result == Brings(before[LastHit(before, c).value])
       case _ => false
  }

  /** Every return, in every run with distinct ids, is one of these: the call was turned away by a dead
      connection, or by a full table; it withdrew because the connection was down or the send failed; or
      it waited, and returns what the last event that reached its cell brought, the frame that was
      delivered, or nothing if the table was resolved last. */
  lemma {:induction false} ReturnsExplained(es: seq<Event>, c: nat) returns (k: nat)
    requires DistinctIds(INITIAL, es)
    requires var s := Run(INITIAL, es); c in s.callers && s.callers[c].phase.Returned?
    ensures k < |es| && ReturnsAt(es, c, k, Run(INITIAL, es).callers[c].phase.result)
    decreases |es|
  {
    assert es != [];
    hide Run, Next, ReturnsAt, DistinctStep;
    var n := |es| - 1;
    var init, e := es[..n], es[n];
    assert es == init + [e];
    RunAppend(INITIAL, init, e);
    var s := Run(INITIAL, init);
    PhasesMove(s, e, c);
    if c in s.callers && s.callers[c].phase.Returned? {
      k := ReturnsExplained(init, c);
      ReturnedBefore(init, e, c, k, s.callers[c].phase.result);
    } else {
      k := n;
      ReturnsNow(init, e, c, Next(s, e).callers[c].phase.result);
    }
  }

  lemma ReturnedBefore(init: seq<Event>, e: Event, c: nat, k: nat, result: Option<Frame>)
    requires k < |init| && ReturnsAt(init, c, k, result)
    ensures ReturnsAt(init + [e], c, k, result)
  {
    hide Run, LastHit, GaveUp;
    assert (init + [e])[..k] == init[..k] && (init + [e])[k] == init[k];
  }

  lemma ReturnsNow(init: seq<Event>, e: Event, c: nat, result: Option<Frame>)
    requires DistinctIds(INITIAL, init)
    requires var s := Run(INITIAL, init);
             c in s.callers && !s.callers[c].phase.Returned? && Shifts(s, e, c, Returned(result))
    ensures ReturnsAt(init + [e], c, |init|, result)
  {
    hide Run, Good, LastHit, GaveUp;
    assert (init + [e])[..|init|] == init;
    RunsDeliver(init, c);
    if At(Run(INITIAL, init), c, Abandoning) {
      AbandoningGaveUp(init, c);
    }
  }

  /** So a call that waited returns a frame if and only if the delivery of that frame is what reached it
      last. */
  lemma AnswerReachesCaller(es: seq<Event>, c: nat, f: Frame)
    requires DistinctIds(INITIAL, es) && At(Run(INITIAL, es), c, Waiting) && Run(INITIAL, es).callers[c].cell.done
    ensures LastHit(es, c).Some?
    ensures At(Next(Run(INITIAL, es), Collect(c)), c, Returned(Some(f))) <==> es[LastHit(es, c).value] == Deliver(f)
  {
    hide Run, Good, LastHit;
    RunsDeliver(es, c);
    var e := es[LastHit(es, c).value];
  }
}
