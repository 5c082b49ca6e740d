/** The durable blob: magic, version, payload length, payload, 64-bit hash. */
module Persistence {
  import opened Types
  import opened Endian
  import opened Wire
  import opened Records
  import opened Checksums

  const MAGIC: Bytes := [70, 70, 82, 83, 84, 48, 48, 49]  // "FFRST001"
  const VERSION: u32 := 2
  const MAX_BLOB: nat := 0x4000_0000
  const HEADER: nat := 20
  const SHORTEST: nat := 36

  // ----- what the encoder refuses ----------------------------------------------------

  predicate WritableService(d: ServiceDefinition) {
    && |d.name| <= MAX_STRING
    && |d.compatibility.modelKey| <= MAX_STRING && |d.compatibility.runtimeAbi| <= MAX_STRING
    && forall r :: r in d.resources ==> FitsResource(r)
  }

  predicate WritableEvent(e: FailureEvent) {
    IsFinite(e.confidence) && |e.mechanism| <= MAX_STRING && |e.detail| <= MAX_STRING
  }

  /** Every string is short enough and every double finite; the encoder throws otherwise. */
  predicate Writable(s: Snapshot) {
    && (forall d :: d in s.services ==> WritableService(d))
    && (forall d :: d in s.domains ==> FitsDomain(d))
    && (forall e :: e in s.evidence ==> WritableEvent(e))
    && (forall r :: r in s.routes ==> FitsRoute(r))
    && (s.hasTxn && s.pendingRoute.Some? ==> FitsRoute(s.pendingRoute.value))
  }

  /** Also within the counts that the decoder accepts. */
  predicate Fits(s: Snapshot) {
    && |s.services| <= MAX_COUNT && (forall d :: d in s.services ==> FitsService(d))
    && |s.assignments| <= MAX_COUNT && (forall a :: a in s.assignments ==> FitsAssignment(a))
    && |s.domains| <= MAX_COUNT && (forall d :: d in s.domains ==> FitsDomain(d))
    && |s.memberships| <= MAX_COUNT
    && |s.evidence| <= MAX_COUNT && (forall e :: e in s.evidence ==> FitsEvent(e))
    && |s.routes| <= MAX_COUNT && (forall r :: r in s.routes ==> FitsRoute(r))
    && |s.fencedBoots| <= MAX_COUNT
    && (s.hasTxn ==>
          && (s.pendingAssignment.Some? ==> FitsAssignment(s.pendingAssignment.value))
          && (s.sourceAssignment.Some? ==> FitsAssignment(s.sourceAssignment.value))
          && (s.pendingRoute.Some? ==> FitsRoute(s.pendingRoute.value)))
  }

  // ----- payload ---------------------------------------------------------------------

  function PutTxn(s: Snapshot, tail: Bytes): Bytes {
    PutBool(s.hasTxn,
      if !s.hasTxn then tail
      else
        PutU8(MilestoneRank(s.txnMilestone),
        PutOpt(PutAssignment, s.pendingAssignment,
        PutOpt(PutAssignment, s.sourceAssignment,
        PutOpt(PutRoute, s.pendingRoute, tail)))))
  }

  function GetTxn(s: Bytes): Parsed<Txn> {
    var (has, s) :- GetBool(s);
    if !has then Ok(NO_TXN, s)
    else
      var (milestone, s) :- GetBelow(6, s);
      var (pending, s) :- GetOpt(GetAssignment, s);
      var (source, s) :- GetOpt(GetAssignment, s);
      var (route, s) :- GetOpt(GetRoute, s);
      if pending.Some? && pending.value.state != Authorized then Bad(PendingNotAuthorized)
      else Ok(Txn(true, MilestoneAt(milestone), pending, source, route), s)
  }

  function SnapshotTxn(s: Snapshot): Txn {
    if s.hasTxn then Txn(true, s.txnMilestone, s.pendingAssignment, s.sourceAssignment, s.pendingRoute) else NO_TXN
  }

  /** A snapshot as it comes back from a blob: unrecorded transaction fields are defaults. */
  function Normalize(s: Snapshot): Snapshot {
    if s.hasTxn then s
    else s.(txnMilestone := VerificationComplete, pendingAssignment := None, sourceAssignment := None,
            pendingRoute := None)
  }

  /** Evidence, routes, fenced boots and the transaction record. */
  function PutTrailer(s: Snapshot, tail: Bytes): Bytes {
    PutList(PutEvent, s.evidence,
    PutList(PutRoute, s.routes,
    PutIds(s.fencedBoots,
    PutTxn(s, tail))))
  }

  function HeadWords(s: Snapshot): (v: seq<u64>)
    ensures |v| == 5
  {
    [s.epoch.value, s.epoch.id, s.epoch.boot, s.policyGeneration, s.lastAuthorityGen]
  }

  function PutPayload(s: Snapshot, tail: Bytes): Bytes {
    PutU32(s.formatVersion,
    PutWords(HeadWords(s),
    PutList(PutService, s.services,
    PutList(PutAssignment, s.assignments,
    PutList(PutDomain, s.domains,
    PutList(PutMembership, s.memberships,
    PutTrailer(s, tail)))))))
  }

  datatype Trailer = Trailer(evidence: seq<FailureEvent>, routes: seq<RouteEntry>, fenced: seq<u64>, txn: Txn)

  function GetTrailer(s: Bytes): Parsed<Trailer> {
    var (evidence, s) :- GetList(GetEvent, s);
    var (routes, s) :- GetList(GetRoute, s);
    var (fenced, s) :- GetIds(s);
    var (txn, s) :- GetTxn(s);
    Ok(Trailer(evidence, routes, fenced, txn), s)
  }

  function GetPayload(s: Bytes): Parsed<Snapshot> {
    var (version, s) :- GetU32(s);
    if version != VERSION then Bad(UnsupportedVersion)
    else
      var (v, s) :- GetWords(5, s);
      var (services, s) :- GetList(GetService, s);
      var (assignments, s) :- GetList(GetAssignment, s);
      var (domains, s) :- GetList(GetDomain, s);
      var (memberships, s) :- GetList(GetMembership, s);
      var (l, s) :- GetTrailer(s);
      Ok(Snapshot(version, Epoch(v[0], v[1], v[2]), v[3], v[4], services, assignments, domains, memberships,
                  l.evidence, l.routes, l.fenced,
                  l.txn.has, l.txn.milestone, l.txn.pending, l.txn.source, l.txn.route), s)
  }

  // ----- semantic validation ---------------------------------------------------------

  ghost predicate DistinctServices(ds: seq<ServiceDefinition>) {
    forall i, j :: 0 <= i < j < |ds| ==> ds[i].service != ds[j].service
  }

  ghost predicate KnownService(ds: seq<ServiceDefinition>, id: u64) {
    exists i :: 0 <= i < |ds| && ds[i].service == id
  }

  ghost predicate OneActivePerSlot(xs: seq<Assignment>) {
    forall i, j :: 0 <= i < j < |xs| && xs[i].state.Active? && xs[j].state.Active? ==> xs[i].slot != xs[j].slot
  }

  ghost predicate PendingAuthorized(s: Snapshot) {
    s.hasTxn && s.pendingAssignment.Some? ==> s.pendingAssignment.value.state.Authorized?
  }

  /** What a durable record must satisfy to be loaded. */
  ghost predicate SemanticallyValid(s: Snapshot) {
    && DistinctServices(s.services)
    && (forall i :: 0 <= i < |s.services| ==> s.services[i].slotsCount != 0)
    && (forall i :: 0 <= i < |s.assignments| ==>
          KnownService(s.services, s.assignments[i].slot.service) && s.assignments[i].authorityGeneration != 0)
    && OneActivePerSlot(s.assignments)
  }

  // ----- encode and decode -----------------------------------------------------------

  function Header(length: nat): (h: Bytes)
    ensures |h| == HEADER
  {
    MAGIC + LittleEndian(4, VERSION) + LittleEndian(8, length)
  }

  function Seal(body: Bytes): Bytes {
    body + LittleEndian(8, Fnv(FNV_OFFSET, body))
  }

  function Encode(s: Snapshot): Result<Bytes, Fault> {
    if s.formatVersion != VERSION then Failure(UnsupportedVersion)
    else if !Writable(s) then Failure(Unwritable)
    else Success(Seal(Header(|PutPayload(s, [])|) + PutPayload(s, [])))
  }

  function Frame(blob: Bytes): (r: Result<Bytes, Fault>)
    ensures r.Success? ==> |blob| == HEADER + |r.value| + 8
  {
    if |blob| < SHORTEST then Failure(TooShort)
    else if blob[..8] != MAGIC then Failure(BadMagic)
    else if FromLittleEndian(blob[8..12]) != VERSION then Failure(UnsupportedVersion)
    else
      var length := FromLittleEndian(blob[12..HEADER]);
      if length > MAX_BLOB then Failure(PayloadTooLarge)
      else if HEADER + length + 8 != |blob| then Failure(LengthMismatch)
      else if Fnv(FNV_OFFSET, blob[..HEADER + length]) != FromLittleEndian(blob[HEADER + length..])
        then Failure(ChecksumMismatch)
      else Success(blob[HEADER..HEADER + length])
  }

  ghost function Decode(blob: Bytes): Result<Snapshot, Fault> {
    match Frame(blob)
    case Failure(fault) => Failure(fault)
    case Success(payload) =>
      match GetPayload(payload)
      case Bad(fault) => Failure(fault)
      case Ok(s, rest) =>
        if rest != [] then Failure(TrailingGarbage)
        else match SemanticFault(s) case Some(fault) => Failure(fault) case None => Success(s)
  }

  ghost function SemanticFault(s: Snapshot): Option<Fault> {
    if !DistinctServices(s.services) then Some(DuplicateService)
    else if exists i :: 0 <= i < |s.services| && s.services[i].slotsCount == 0 then Some(ZeroSlots)
    else AssignmentFault(s.services, s.assignments, 0)
  }

  /** The first objection to an assignment, in the order the assignments are listed. */
  ghost function AssignmentFault(ds: seq<ServiceDefinition>, xs: seq<Assignment>, i: nat): Option<Fault>
    requires i <= |xs|
    decreases |xs| - i
  {
    if i == |xs| then None
    else if !KnownService(ds, xs[i].slot.service) then Some(UnknownService)
    else if xs[i].state.Active? && (exists j :: 0 <= j < i && xs[j].state.Active? && xs[j].slot == xs[i].slot)
      then Some(DuplicateActive)
    else if xs[i].authorityGeneration == 0 then Some(NullAuthority)
    else AssignmentFault(ds, xs, i + 1)
  }

  lemma {:induction false} AssignmentFaultFrom(ds: seq<ServiceDefinition>, xs: seq<Assignment>, i: nat)
    requires i <= |xs|
    ensures AssignmentFault(ds, xs, i).None? <==>
            forall k :: i <= k < |xs| ==>
              && KnownService(ds, xs[k].slot.service)
              && xs[k].authorityGeneration != 0
              && (xs[k].state.Active? ==> forall j :: 0 <= j < k && xs[j].state.Active? ==> xs[j].slot != xs[k].slot)
    decreases |xs| - i
  {
    if i != |xs| {
      AssignmentFaultFrom(ds, xs, i + 1);
    }
  }

  /** The ordered checks of the decoder refuse exactly the records that are not semantically valid. */
  lemma SemanticFaultExact(s: Snapshot)
    ensures SemanticFault(s).None? <==> SemanticallyValid(s)
  {
    AssignmentFaultFrom(s.services, s.assignments, 0);
  }

  // ----- the payload reads back ------------------------------------------------------

  lemma ListsReadBack()
    ensures ReadsBack(PutService, GetService, FitsService)
    ensures ReadsBack(PutAssignment, GetAssignment, FitsAssignment)
    ensures ReadsBack(PutDomain, GetDomain, FitsDomain)
    ensures ReadsBack(PutMembership, GetMembership, AnyMembership)
    ensures ReadsBack(PutEvent, GetEvent, FitsEvent)
    ensures ReadsBack(PutRoute, GetRoute, FitsRoute)
  {
    hide PutService, GetService, PutAssignment, GetAssignment, PutDomain, GetDomain,
      PutMembership, GetMembership, PutEvent, GetEvent, PutRoute, GetRoute;
    forall x, t | FitsService(x) ensures GetService(PutService(x, t)) == Ok(x, t) { ServiceWritten(x, t); }
    forall x, t | FitsAssignment(x) ensures GetAssignment(PutAssignment(x, t)) == Ok(x, t) { AssignmentWritten(x, t); }
    forall x, t | FitsDomain(x) ensures GetDomain(PutDomain(x, t)) == Ok(x, t) { DomainWritten(x, t); }
    forall x, t ensures GetMembership(PutMembership(x, t)) == Ok(x, t) { MembershipWritten(x, t); }
    forall x, t | FitsEvent(x) ensures GetEvent(PutEvent(x, t)) == Ok(x, t) { EventWritten(x, t); }
    forall x, t | FitsRoute(x) ensures GetRoute(PutRoute(x, t)) == Ok(x, t) { RouteWritten(x, t); }
  }

  lemma ListsCanonical()
    ensures Canonical(PutService, GetService, FitsService)
    ensures Canonical(PutAssignment, GetAssignment, FitsAssignment)
    ensures Canonical(PutDomain, GetDomain, FitsDomain)
    ensures Canonical(PutMembership, GetMembership, AnyMembership)
    ensures Canonical(PutEvent, GetEvent, FitsEvent)
    ensures Canonical(PutRoute, GetRoute, FitsRoute)
  {
    hide PutService, GetService, PutAssignment, GetAssignment, PutDomain, GetDomain,
      PutMembership, GetMembership, PutEvent, GetEvent, PutRoute, GetRoute;
    forall s | GetService(s).Ok?
      ensures FitsService(GetService(s).value)
              && PutService(GetService(s).value, GetService(s).rest) == s { ServiceCanonical(s); }
    forall s | GetAssignment(s).Ok?
      ensures FitsAssignment(GetAssignment(s).value)
              && PutAssignment(GetAssignment(s).value, GetAssignment(s).rest) == s { AssignmentCanonical(s); }
    forall s | GetDomain(s).Ok?
      ensures FitsDomain(GetDomain(s).value)
              && PutDomain(GetDomain(s).value, GetDomain(s).rest) == s { DomainCanonical(s); }
    forall s | GetMembership(s).Ok?
      ensures PutMembership(GetMembership(s).value, GetMembership(s).rest) == s { MembershipCanonical(s); }
    forall s | GetEvent(s).Ok?
      ensures FitsEvent(GetEvent(s).value) && PutEvent(GetEvent(s).value, GetEvent(s).rest) == s { EventCanonical(s); }
    forall s | GetRoute(s).Ok?
      ensures FitsRoute(GetRoute(s).value) && PutRoute(GetRoute(s).value, GetRoute(s).rest) == s { RouteCanonical(s); }
  }

  lemma TxnWritten(s: Snapshot, tail: Bytes)
    requires Fits(s)
    ensures GetTxn(PutTxn(s, tail)) ==
            if PendingAuthorized(s) then Ok(SnapshotTxn(s), tail) else Bad(PendingNotAuthorized)
  {
    hide PutAssignment, GetAssignment, PutRoute, GetRoute, PutBool, GetBool, PutU8, GetU8, PutOpt, GetOpt;
    if s.hasTxn {
      ListsReadBack();
      var s3 := PutOpt(PutRoute, s.pendingRoute, tail);
      var s2 := PutOpt(PutAssignment, s.sourceAssignment, s3);
      OptWritten(PutRoute, GetRoute, FitsRoute, s.pendingRoute, tail);
      OptWritten(PutAssignment, GetAssignment, FitsAssignment, s.sourceAssignment, s3);
      OptWritten(PutAssignment, GetAssignment, FitsAssignment, s.pendingAssignment, s2);
    }
  }

  lemma TrailerWritten(s: Snapshot, tail: Bytes)
    requires Fits(s)
    ensures GetTrailer(PutTrailer(s, tail)) ==
            if PendingAuthorized(s) then Ok(Trailer(s.evidence, s.routes, s.fencedBoots, SnapshotTxn(s)), tail)
              else Bad(PendingNotAuthorized)
  {
    hide PutEvent, GetEvent, PutRoute, GetRoute, PutIds, GetIds, PutTxn, GetTxn, PutList, GetList;
    ListsReadBack();
    var s3 := PutTxn(s, tail);
    var s2 := PutIds(s.fencedBoots, s3);
    TxnWritten(s, tail);
    IdsWritten(s.fencedBoots, None, s3);
    ListWritten(PutRoute, GetRoute, FitsRoute, s.routes, s2);
    ListWritten(PutEvent, GetEvent, FitsEvent, s.evidence, PutList(PutRoute, s.routes, s2));
  }

  lemma PayloadWritten(s: Snapshot, tail: Bytes)
    requires Fits(s) && s.formatVersion == VERSION
    ensures GetPayload(PutPayload(s, tail)) ==
            if PendingAuthorized(s) then Ok(Normalize(s), tail) else Bad(PendingNotAuthorized)
  {
    hide PutService, GetService, PutAssignment, GetAssignment, PutDomain, GetDomain, PutMembership, GetMembership,
      PutTrailer, GetTrailer, PutList, GetList, PutWords, GetWords, PutU32, GetU32;
    ListsReadBack();
    var s5 := PutTrailer(s, tail);
    var s4 := PutList(PutMembership, s.memberships, s5);
    var s3 := PutList(PutDomain, s.domains, s4);
    var s2 := PutList(PutAssignment, s.assignments, s3);
    var s1 := PutList(PutService, s.services, s2);
    TrailerWritten(s, tail);
    ListWritten(PutMembership, GetMembership, AnyMembership, s.memberships, s5);
    ListWritten(PutDomain, GetDomain, FitsDomain, s.domains, s4);
    ListWritten(PutAssignment, GetAssignment, FitsAssignment, s.assignments, s3);
    ListWritten(PutService, GetService, FitsService, s.services, s2);
    WordsWritten(HeadWords(s), s1);
  }

  lemma TxnCanonical(s: Bytes, snap: Snapshot)
    requires GetTxn(s).Ok?
             && GetTxn(s).value
                == Txn(snap.hasTxn, snap.txnMilestone, snap.pendingAssignment, snap.sourceAssignment, snap.pendingRoute)
    ensures PutTxn(snap, GetTxn(s).rest) == s && PendingAuthorized(snap)
    ensures snap.hasTxn ==>
              && (snap.pendingAssignment.Some? ==> FitsAssignment(snap.pendingAssignment.value))
              && (snap.sourceAssignment.Some? ==> FitsAssignment(snap.sourceAssignment.value))
              && (snap.pendingRoute.Some? ==> FitsRoute(snap.pendingRoute.value))
  {
    hide PutAssignment, GetAssignment, PutRoute, GetRoute, PutBool, GetBool, PutU8, GetU8, PutOpt, GetOpt;
    ListsCanonical();
    ScalarsCanonical(s);
    if GetBool(s).value {
      var s1 := GetBelow(6, GetBool(s).rest).rest;
      OptCanonical(PutAssignment, GetAssignment, FitsAssignment, s1);
      var s2 := GetOpt(GetAssignment, s1).rest;
      OptCanonical(PutAssignment, GetAssignment, FitsAssignment, s2);
      OptCanonical(PutRoute, GetRoute, FitsRoute, GetOpt(GetAssignment, s2).rest);
    }
  }

  lemma TrailerCanonical(s: Bytes, snap: Snapshot)
    requires GetTrailer(s).Ok?
    requires GetTrailer(s).value == Trailer(snap.evidence, snap.routes, snap.fencedBoots,
               Txn(snap.hasTxn, snap.txnMilestone, snap.pendingAssignment, snap.sourceAssignment, snap.pendingRoute))
    ensures PutTrailer(snap, GetTrailer(s).rest) == s && PendingAuthorized(snap)
    ensures |snap.evidence| <= MAX_COUNT && (forall e :: e in snap.evidence ==> FitsEvent(e))
    ensures |snap.routes| <= MAX_COUNT && (forall r :: r in snap.routes ==> FitsRoute(r))
    ensures |snap.fencedBoots| <= MAX_COUNT
    ensures snap.hasTxn ==>
              && (snap.pendingAssignment.Some? ==> FitsAssignment(snap.pendingAssignment.value))
              && (snap.sourceAssignment.Some? ==> FitsAssignment(snap.sourceAssignment.value))
              && (snap.pendingRoute.Some? ==> FitsRoute(snap.pendingRoute.value))
  {
    hide PutEvent, GetEvent, PutRoute, GetRoute, PutIds, GetIds, PutTxn, GetTxn, PutList, GetList;
    ListsCanonical();
    ListCanonical(PutEvent, GetEvent, FitsEvent, s);
    var s1 := GetList(GetEvent, s).rest;
    ListCanonical(PutRoute, GetRoute, FitsRoute, s1);
    var s2 := GetList(GetRoute, s1).rest;
    IdsCanonical(s2);
    TxnCanonical(GetIds(s2).rest, snap);
  }

  lemma PayloadCanonical(s: Bytes)
    requires GetPayload(s).Ok?
    ensures var snap := GetPayload(s).value;
            && snap.formatVersion == VERSION && Fits(snap) && PendingAuthorized(snap)
            && PutPayload(snap, GetPayload(s).rest) == s && Normalize(snap) == snap
  {
    hide PutService, GetService, PutAssignment, GetAssignment, PutDomain, GetDomain, PutMembership, GetMembership,
      PutTrailer, PutList, GetList, PutWords, GetWords, PutU32, GetU32;
    var snap := GetPayload(s).value;
    ListsCanonical();
    IntegersCanonical(s);
    var s0 := GetU32(s).rest;
    WordsCanonical(5, s0);
    assert HeadWords(snap) == GetWords(5, s0).value;
    var s1 := GetWords(5, s0).rest;
    ListCanonical(PutService, GetService, FitsService, s1);
    var s2 := GetList(GetService, s1).rest;
    ListCanonical(PutAssignment, GetAssignment, FitsAssignment, s2);
    var s3 := GetList(GetAssignment, s2).rest;
    ListCanonical(PutDomain, GetDomain, FitsDomain, s3);
    var s4 := GetList(GetDomain, s3).rest;
    ListCanonical(PutMembership, GetMembership, AnyMembership, s4);
    TrailerCanonical(GetList(GetMembership, s4).rest, snap);
  }

  // ----- the envelope ----------------------------------------------------------------

  lemma HeaderFields(length: nat, rest: Bytes)
    requires length < U64_LIMIT
    ensures var b := Header(length) + rest;
            b[..8] == MAGIC && FromLittleEndian(b[8..12]) == VERSION && FromLittleEndian(b[12..HEADER]) == length
  {
    WidthFacts();
    var b := Header(length) + rest;
    assert b[8..12] == LittleEndian(4, VERSION);
    assert b[12..HEADER] == LittleEndian(8, length);
    LittleEndianRead(4, VERSION);
    LittleEndianRead(8, length);
  }

  lemma FrameOpens(payload: Bytes)
    requires 8 <= |payload| <= MAX_BLOB
    ensures Frame(Seal(Header(|payload|) + payload)) == Success(payload)
  {
    hide Header, Fnv, LittleEndian, FromLittleEndian;
    var body := Header(|payload|) + payload;
    var hash := LittleEndian(8, Fnv(FNV_OFFSET, body));
    var blob := Seal(body);
    assert blob == Header(|payload|) + (payload + hash);
    HeaderFields(|payload|, payload + hash);
    assert blob[..HEADER + |payload|] == body && blob[HEADER + |payload|..] == hash
           && blob[HEADER..HEADER + |payload|] == payload;
    WidthFacts();
    LittleEndianRead(8, Fnv(FNV_OFFSET, body));
  }

  lemma FrameCanonical(blob: Bytes)
    requires Frame(blob).Success?
    ensures blob == Seal(Header(|Frame(blob).value|) + Frame(blob).value)
    ensures |Frame(blob).value| <= MAX_BLOB
  {
    hide Fnv, LittleEndian, FromLittleEndian;
    var payload := Frame(blob).value;
    LittleEndianWritten(blob[8..12]);
    LittleEndianWritten(blob[12..HEADER]);
    LittleEndianWritten(blob[HEADER + |payload|..]);
    assert blob[..HEADER] == blob[..8] + blob[8..12] + blob[12..HEADER];
    assert blob[..HEADER + |payload|] == blob[..HEADER] + payload;
    assert blob == blob[..HEADER + |payload|] + blob[HEADER + |payload|..];
  }

  // ----- main results ----------------------------------------------------------------

  lemma PayloadLongEnough(s: Snapshot)
    ensures |PutPayload(s, [])| >= 8
  {
    hide PutList, PutTrailer;
    assert |PutWords(HeadWords(s), PutList(PutService, s.services, PutList(PutAssignment, s.assignments,
             PutList(PutDomain, s.domains, PutList(PutMembership, s.memberships, PutTrailer(s, []))))))| >= 8;
  }

  /** The decoder accepts nothing but encodings: what it returns encodes to the very blob it read. */
  lemma DecodeAcceptsOnlyEncodings(blob: Bytes)
    requires Decode(blob).Success?
    ensures var s := Decode(blob).value;
            Encode(s) == Success(blob) && Fits(s) && SemanticallyValid(s) && PendingAuthorized(s)
  {
    hide PutPayload, GetPayload, Frame, Seal, Header, SemanticFault;
    FrameCanonical(blob);
    PayloadCanonical(Frame(blob).value);
    SemanticFaultExact(GetPayload(Frame(blob).value).value);
  }

  /** Whatever can be encoded decodes to itself (with unrecorded transaction fields reset) if and only
      if it is within the decoder's limits and semantically valid, with an authorized pending
      assignment. A snapshot within the limits can be encoded, and one that is not valid is refused. */
  lemma RoundTrip(s: Snapshot)
    ensures s.formatVersion == VERSION && Fits(s) ==> Encode(s).Success?
    ensures Encode(s).Success? ==>
              (Decode(Encode(s).value) == Success(Normalize(s)) <==>
               Fits(s) && |PutPayload(s, [])| <= MAX_BLOB && SemanticallyValid(s) && PendingAuthorized(s))
    ensures Encode(s).Success? && Fits(s) && |PutPayload(s, [])| <= MAX_BLOB
            && !(SemanticallyValid(s) && PendingAuthorized(s)) ==>
              Decode(Encode(s).value).Failure?
  {
    hide PutPayload, GetPayload, Frame, Seal, Header, SemanticFault, Decode, Fits, SemanticallyValid;
    if Fits(s) {
      FitsIsWritable(s);
    }
    if Encode(s).Success? {
      if Fits(s) && |PutPayload(s, [])| <= MAX_BLOB {
        WithinLimits(s);
      }
      if Decode(Encode(s).value) == Success(Normalize(s)) {
        DecodeAcceptsOnlyEncodings(Encode(s).value);
        SameLimits(s);
        DecodedSize(s);
      }
    }
  }

  lemma FitsIsWritable(s: Snapshot)
    requires Fits(s)
    ensures Writable(s)
  {
  }

  lemma SameLimits(s: Snapshot)
    ensures Fits(Normalize(s)) <==> Fits(s)
    ensures SemanticallyValid(Normalize(s)) <==> SemanticallyValid(s)
    ensures PendingAuthorized(Normalize(s)) <==> PendingAuthorized(s)
  {
    hide DistinctServices, KnownService, OneActivePerSlot, FitsService, FitsAssignment, FitsDomain, FitsEvent,
      FitsRoute;
  }

  lemma DecodedSize(s: Snapshot)
    requires Encode(s).Success? && Decode(Encode(s).value).Success?
    ensures |PutPayload(s, [])| <= MAX_BLOB
  {
    hide PutPayload, GetPayload, Frame, Header, SemanticFault, Writable, Fnv, LittleEndian;
    var blob := Encode(s).value;
    WidthFacts();
    FrameCanonical(blob);
  }

  lemma WithinLimits(s: Snapshot)
    requires s.formatVersion == VERSION && Fits(s) && |PutPayload(s, [])| <= MAX_BLOB
    ensures Encode(s).Success?
    ensures SemanticallyValid(s) && PendingAuthorized(s) ==> Decode(Encode(s).value) == Success(Normalize(s))
    ensures !(SemanticallyValid(s) && PendingAuthorized(s)) ==> Decode(Encode(s).value).Failure?
  {
    hide PutPayload, GetPayload, Frame, Seal, Header, SemanticFault;
    PayloadLongEnough(s);
    FrameOpens(PutPayload(s, []));
    PayloadWritten(s, []);
    SemanticFaultExact(Normalize(s));
  }

  /** Changing one byte of a sealed body breaks the seal. */
  lemma SealDetectsOneByte(body: Bytes, corrupt: Bytes, p: nat)
    requires DifferOnlyAt(Seal(body), corrupt, p)
    ensures Frame(corrupt).Failure?
  {
    hide Fnv, FromLittleEndian, LittleEndian;
    if Frame(corrupt).Success? {
      var n := |body|;
      var hash := Fnv(FNV_OFFSET, body);
      var blob := Seal(body);
      assert |corrupt| == n + 8;
      assert blob[..n] == body && blob[n..] == LittleEndian(8, hash);
      WidthFacts();
      LittleEndianRead(8, hash);
      if p < n {
        assert corrupt[n..] == blob[n..];
        FnvDetectsOneByte(FNV_OFFSET, body, corrupt[..n], p);
      } else {
        assert corrupt[..n] == body;
        assert corrupt[n..][p - n] != blob[n..][p - n];
        LittleEndianWritten(corrupt[n..]);
      }
    }
  }

  /** No blob that differs from an encoding in exactly one byte is accepted, whether or not that
      encoding itself could be loaded. */
  lemma OneByteCorruptionRejected(s: Snapshot, corrupt: Bytes, p: nat)
    requires Encode(s).Success? && DifferOnlyAt(Encode(s).value, corrupt, p)
    ensures Decode(corrupt).Failure?
  {
    hide GetPayload, PutPayload, Frame, Seal, SemanticFault;
    SealDetectsOneByte(Header(|PutPayload(s, [])|) + PutPayload(s, []), corrupt, p);
  }
}
