/** The encoder as it runs: every record is appended to a byte vector, field by field and list by
    list. Proved to compute `Encode`. */
module Writing {
  import opened Types
  import opened Endian
  import opened Wire
  import opened Records
  import opened Persistence
  import opened Checksums

  /** An encoder either goes through or throws. */
  datatype Status = Fine | Thrown {
    predicate IsFailure() { Thrown? }
    function PropagateFailure(): Status { this }
  }

  // ----- appending -------------------------------------------------------------------

  /** What was appended to `before` is a list from position `k` on still to be written. */
  ghost predicate Pending<T>(put: Putter<T>, xs: seq<T>, k: nat, before: Bytes, out: Bytes)
    requires k <= |xs|
  {
    forall t :: out + PutAll(put, xs[k..], t) == before + PutAll(put, xs, t)
  }

  lemma PendingStart<T>(put: Putter<T>, xs: seq<T>, before: Bytes)
    ensures Pending(put, xs, 0, before, before)
  {
    assert xs[0..] == xs;
  }

  lemma PendingNext<T>(put: Putter<T>, xs: seq<T>, k: nat, before: Bytes, out: Bytes, more: Bytes)
    requires k < |xs| && Pending(put, xs, k, before, out)
    requires forall t :: more + t == out + put(xs[k], t)
    ensures Pending(put, xs, k + 1, before, more)
  {
    assert xs[k..][1..] == xs[k + 1..];
    forall t ensures more + PutAll(put, xs[k + 1..], t) == before + PutAll(put, xs, t) {
      assert more + PutAll(put, xs[k + 1..], t) == out + put(xs[k], PutAll(put, xs[k + 1..], t));
    }
  }

  lemma PendingDone<T>(put: Putter<T>, xs: seq<T>, start: Bytes, before: Bytes, out: Bytes)
    requires Pending(put, xs, |xs|, before, out)
    requires forall t :: before + t == start + PutU32(|xs| % U32_LIMIT, t)
    ensures forall t :: out + t == start + PutList(put, xs, t)
  {
    assert xs[|xs|..] == [];
    forall t ensures out + t == start + PutList(put, xs, t) {
      assert out + PutAll(put, xs[|xs|..], t) == before + PutAll(put, xs, t);
    }
  }

  class Writer {
    var out: Bytes

    constructor ()
      ensures out == []
    {
      out := [];
    }

    method U8(v: u8)
      modifies this
      ensures forall t :: out + t == old(out) + PutU8(v, t)
    {
      out := out + [v];
      assert forall t :: (old(out) + [v]) + t == old(out) + ([v] + t);
    }

    method U32(v: u32)
      modifies this
      ensures forall t :: out + t == old(out) + PutU32(v, t)
    {
      out := out + LittleEndian(4, v);
      assert forall t :: (old(out) + LittleEndian(4, v)) + t == old(out) + (LittleEndian(4, v) + t);
    }

    method U64(v: u64)
      modifies this
      ensures forall t :: out + t == old(out) + PutU64(v, t)
    {
      out := out + LittleEndian(8, v);
      assert forall t :: (old(out) + LittleEndian(8, v)) + t == old(out) + (LittleEndian(8, v) + t);
    }

    method Bool(v: bool)
      modifies this
      ensures forall t :: out + t == old(out) + PutBool(v, t)
    {
      hide PutU8;
      U8(if v then 1 else 0);
    }

    method Double(v: DoubleBits) returns (st: Status)
      modifies this
      ensures st.Fine? <==> IsFinite(v)
      ensures st.Fine? ==> forall t :: out + t == old(out) + PutDouble(v, t)
    {
      hide PutU64;
      if !IsFinite(v) {
        return Thrown;
      }
      U64(v);
      return Fine;
    }

    method Text(v: Bytes) returns (st: Status)
      modifies this
      ensures st.Fine? <==> |v| <= MAX_STRING
      ensures st.Fine? ==> forall t :: out + t == old(out) + PutString(v, t)
    {
      hide PutU32;
      if |v| > MAX_STRING {
        return Thrown;
      }
      U32(|v| % U32_LIMIT);
      ghost var mid := out;
      out := out + v;
      assert forall t :: (mid + v) + t == mid + (v + t);
      return Fine;
    }

    method Signed(v: i64)
      modifies this
      ensures forall t :: out + t == old(out) + PutSigned(v, t)
    {
      hide PutU64;
      U64(if v < 0 then v + U64_LIMIT else v);
    }

    method Words(vs: seq<u64>)
      modifies this
      ensures forall t :: out + t == old(out) + PutWords(vs, t)
    {
      hide PutU64;
      for k := 0 to |vs|
        invariant forall t :: out + PutWords(vs[k..], t) == old(out) + PutWords(vs, t)
      {
        assert vs[k..][1..] == vs[k + 1..];
        ghost var mid := out;
        U64(vs[k]);
        forall t ensures out + PutWords(vs[k + 1..], t) == old(out) + PutWords(vs, t) {
          assert out + PutWords(vs[k + 1..], t) == mid + PutU64(vs[k], PutWords(vs[k + 1..], t));
          assert mid + PutWords(vs[k..], t) == old(out) + PutWords(vs, t);
        }
      }
      assert vs[|vs|..] == [];
      forall t ensures out + t == old(out) + PutWords(vs, t) {
        assert out + PutWords(vs[|vs|..], t) == old(out) + PutWords(vs, t);
      }
    }

    method Ids(xs: seq<u64>)
      modifies this
      ensures forall t :: out + t == old(out) + PutIds(xs, t)
    {
      hide PutU64, PutU32, PutList, Pending;
      U32(|xs| % U32_LIMIT);
      ghost var before := out;
      PendingStart(PutU64, xs, before);
      for k := 0 to |xs|
        invariant Pending(PutU64, xs, k, before, out)
      {
        ghost var mid := out;
        U64(xs[k]);
        PendingNext(PutU64, xs, k, before, mid, out);
      }
      PendingDone(PutU64, xs, old(out), before, out);
    }

    method OptId(o: Option<u64>)
      modifies this
      ensures forall t :: out + t == old(out) + PutOptId(o, t)
    {
      hide PutU64, PutBool;
      Bool(o.Some?);
      if o.Some? {
        U64(o.value);
      }
    }

    method Assignment(a: Assignment)
      modifies this
      ensures forall t :: out + t == old(out) + PutAssignment(a, t)
    {
      hide PutU8, PutBool, PutWords, PutIds, AssignmentWords;
      Words(AssignmentWords(a));
      Ids(a.resourceClaims);
      Ids(a.continuityState);
      U8(AssignmentStateCode(a.state));
      Bool(a.provisory);
      U8(a.provenance);
    }

    method Compat(x: Compatibility) returns (st: Status)
      modifies this
      ensures st.Fine? <==> |x.modelKey| <= MAX_STRING && |x.runtimeAbi| <= MAX_STRING
      ensures st.Fine? ==> forall t :: out + t == old(out) + PutCompatibility(x, t)
    {
      hide PutU8, PutU32, PutU64, PutBool, PutString, PutDouble, PutIds, PutOptId, PutWords;
      :- Text(x.modelKey);
      :- Text(x.runtimeAbi);
      OptId(x.readinessProfile);
      Ids(x.dependencies);
      Ids(x.requiredCapabilities);
      return Fine;
    }

    method Class(c: DomainClass)
      modifies this
      ensures forall t :: out + t == old(out) + PutClass(c, t)
    {
      hide PutU8;
      U8(c);
    }

    method Classes(xs: seq<DomainClass>)
      modifies this
      ensures forall t :: out + t == old(out) + PutList(PutClass, xs, t)
    {
      hide PutClass, PutU32, PutList, Pending;
      U32(|xs| % U32_LIMIT);
      ghost var before := out;
      PendingStart(PutClass, xs, before);
      for k := 0 to |xs|
        invariant Pending(PutClass, xs, k, before, out)
      {
        ghost var mid := out;
        Class(xs[k]);
        PendingNext(PutClass, xs, k, before, mid, out);
      }
      PendingDone(PutClass, xs, old(out), before, out);
    }

    method DomainReq(x: DomainRequirement)
      modifies this
      ensures forall t :: out + t == old(out) + PutDomainRequirement(x, t)
    {
      hide PutU8, PutU32, PutU64, PutBool, PutString, PutDouble, PutIds, PutOptId, PutWords, PutList;
      Bool(x.requireIndependence);
      U32(x.minDistinctHosts);
      U32(x.minDistinctDevices);
      Classes(x.forbiddenOverlapClasses);
    }

    method Res(x: ResourceRequirement) returns (st: Status)
      modifies this
      ensures st.Fine? <==> FitsResource(x)
      ensures st.Fine? ==> forall t :: out + t == old(out) + PutResource(x, t)
    {
      hide PutU8, PutU32, PutU64, PutBool, PutString, PutDouble, PutIds, PutOptId, PutWords;
      :- Text(x.resourceClass);
      :- Double(x.amount);
      Bool(x.exactlyOneTarget);
      return Fine;
    }

    method Resources(xs: seq<ResourceRequirement>) returns (st: Status)
      modifies this
      ensures st.Fine? <==> forall x :: x in xs ==> FitsResource(x)
      ensures st.Fine? ==> forall t :: out + t == old(out) + PutList(PutResource, xs, t)
    {
      hide PutResource, PutU32, PutList, Pending, FitsResource;
      U32(|xs| % U32_LIMIT);
      ghost var before := out;
      PendingStart(PutResource, xs, before);
      for k := 0 to |xs|
        invariant Pending(PutResource, xs, k, before, out)
        invariant forall j :: 0 <= j < k ==> FitsResource(xs[j])
      {
        ghost var mid := out;
        :- Res(xs[k]);
        PendingNext(PutResource, xs, k, before, mid, out);
      }
      PendingDone(PutResource, xs, old(out), before, out);
      return Fine;
    }

    method Recovery(x: RecoveryObjective)
      modifies this
      ensures forall t :: out + t == old(out) + PutRecovery(x, t)
    {
      hide PutU8, PutU32, PutU64, PutBool, PutString, PutDouble, PutIds, PutOptId, PutWords;
      U64(x.rtoMs);
      U8(x.rtoAnchor);
      U8(ContinuityCode(x.continuity));
      U64(x.maxStateLossSequences);
      OptId(x.minCheckpointGen);
      Bool(x.requiresVerifiedRecovery);
    }

    method Limits(x: AntiFlapping)
      modifies this
      ensures forall t :: out + t == old(out) + PutAntiFlapping(x, t)
    {
      hide PutU8, PutU32, PutU64, PutBool, PutString, PutDouble, PutIds, PutOptId, PutWords;
      U32(x.maxAutoAttempts);
      U32(x.cooldownMs);
      U32(x.hysteresisMs);
      Bool(x.manualInterventionRequired);
    }

    method ServiceEnd(x: ServiceDefinition)
      modifies this
      ensures forall t :: out + t == old(out) + PutServiceTail(x, t)
    {
      hide PutU8, PutU32, PutU64, PutBool, PutString, PutDouble, PutIds, PutOptId, PutWords, PutRecovery,
        PutAntiFlapping;
      Recovery(x.recovery);
      U8(FailbackCode(x.failback));
      Limits(x.antiFlapping);
      Ids(x.requiredState);
      U8(x.provenance);
      U64(x.policyGeneration);
    }

    method Service(x: ServiceDefinition) returns (st: Status)
      modifies this
      ensures st.Fine? <==> WritableService(x)
      ensures st.Fine? ==> forall t :: out + t == old(out) + PutService(x, t)
    {
      hide PutU8, PutU32, PutU64, PutBool, PutString, PutDouble, PutIds, PutOptId, PutWords, PutCompatibility,
        PutDomainRequirement, PutList, PutServiceTail, FitsResource;
      U64(x.service);
      U64(x.generation);
      U64(x.configGeneration);
      :- Text(x.name);
      U8(x.role);
      U32(x.slotsFirst);
      U32(x.slotsCount);
      :- Compat(x.compatibility);
      DomainReq(x.domainRequirement);
      :- Resources(x.resources);
      ServiceEnd(x);
      return Fine;
    }

    method Domain(x: DomainDecl) returns (st: Status)
      modifies this
      ensures st.Fine? <==> FitsDomain(x)
      ensures st.Fine? ==> forall t :: out + t == old(out) + PutDomain(x, t)
    {
      hide PutU8, PutU32, PutU64, PutBool, PutString, PutDouble, PutIds, PutOptId, PutWords;
      U64(x.id);
      U64(x.generation);
      U8(x.cls);
      :- Text(x.name);
      OptId(x.parent);
      U8(x.provenance);
      return Fine;
    }

    method Member(x: Membership)
      modifies this
      ensures forall t :: out + t == old(out) + PutMembership(x, t)
    {
      hide PutU8, PutU32, PutU64, PutBool, PutString, PutDouble, PutIds, PutOptId, PutWords;
      U64(x.target);
      U64(x.domain);
      Bool(x.known);
    }

    method Time(x: Timestamp)
      modifies this
      ensures forall t :: out + t == old(out) + PutTimestamp(x, t)
    {
      hide PutU8, PutU32, PutU64, PutBool, PutString, PutDouble, PutIds, PutOptId, PutWords, PutSigned;
      Signed(x.wallNs);
      U64(x.seqNo);
    }

    method About(x: Subject)
      modifies this
      ensures forall t :: out + t == old(out) + PutSubject(x, t)
    {
      hide PutU8, PutU32, PutU64, PutBool, PutString, PutDouble, PutIds, PutOptId, PutWords, PutTimestamp;
      OptId(x.target);
      OptId(x.targetGeneration);
      OptId(x.domain);
      Time(x.observed);
      Time(x.received);
    }

    method Event(x: FailureEvent) returns (st: Status)
      modifies this
      ensures st.Fine? <==> WritableEvent(x)
      ensures st.Fine? ==> forall t :: out + t == old(out) + PutEvent(x, t)
    {
      hide PutU8, PutU32, PutU64, PutBool, PutString, PutDouble, PutIds, PutOptId, PutWords, PutSubject, IsFinite;
      Words([x.eventId, x.generation, x.source, x.sourceBoot]);
      U8(x.category);
      U8(StatusCode(x.status));
      U8(x.provenance);
      U8(x.severity);
      :- Double(x.confidence);
      About(Subject(x.target, x.targetGeneration, x.domain, x.observed, x.received));
      :- Text(x.mechanism);
      :- Text(x.detail);
      Ids(x.affectedDomains);
      Bool(x.revalidatesExisting);
      return Fine;
    }

    method Route(x: RouteEntry) returns (st: Status)
      modifies this
      ensures st.Fine? <==> FitsRoute(x)
      ensures st.Fine? ==> forall t :: out + t == old(out) + PutRoute(x, t)
    {
      hide PutU8, PutU32, PutU64, PutBool, PutString, PutDouble, PutIds, PutOptId, PutWords, RouteWords;
      Words(RouteWords(x));
      U8(RouteStateCode(x.state));
      :- Text(x.transport);
      U8(x.provenance);
      return Fine;
    }

    method Services(xs: seq<ServiceDefinition>) returns (st: Status)
      modifies this
      ensures st.Fine? <==> forall x :: x in xs ==> WritableService(x)
      ensures st.Fine? ==> forall t :: out + t == old(out) + PutList(PutService, xs, t)
    {
      hide PutService, PutU32, PutList, Pending, WritableService;
      U32(|xs| % U32_LIMIT);
      ghost var before := out;
      PendingStart(PutService, xs, before);
      for k := 0 to |xs|
        invariant Pending(PutService, xs, k, before, out)
        invariant forall j :: 0 <= j < k ==> WritableService(xs[j])
      {
        ghost var mid := out;
        :- Service(xs[k]);
        PendingNext(PutService, xs, k, before, mid, out);
      }
      PendingDone(PutService, xs, old(out), before, out);
      return Fine;
    }

    method Assignments(xs: seq<Types.Assignment>)
      modifies this
      ensures forall t :: out + t == old(out) + PutList(PutAssignment, xs, t)
    {
      hide PutAssignment, PutU32, PutList, Pending;
      U32(|xs| % U32_LIMIT);
      ghost var before := out;
      PendingStart(PutAssignment, xs, before);
      for k := 0 to |xs|
        invariant Pending(PutAssignment, xs, k, before, out)
      {
        ghost var mid := out;
        Assignment(xs[k]);
        PendingNext(PutAssignment, xs, k, before, mid, out);
      }
      PendingDone(PutAssignment, xs, old(out), before, out);
    }

    method Domains(xs: seq<DomainDecl>) returns (st: Status)
      modifies this
      ensures st.Fine? <==> forall x :: x in xs ==> FitsDomain(x)
      ensures st.Fine? ==> forall t :: out + t == old(out) + PutList(PutDomain, xs, t)
    {
      hide PutDomain, PutU32, PutList, Pending, FitsDomain;
      U32(|xs| % U32_LIMIT);
      ghost var before := out;
      PendingStart(PutDomain, xs, before);
      for k := 0 to |xs|
        invariant Pending(PutDomain, xs, k, before, out)
        invariant forall j :: 0 <= j < k ==> FitsDomain(xs[j])
      {
        ghost var mid := out;
        :- Domain(xs[k]);
        PendingNext(PutDomain, xs, k, before, mid, out);
      }
      PendingDone(PutDomain, xs, old(out), before, out);
      return Fine;
    }

    method Members(xs: seq<Membership>)
      modifies this
      ensures forall t :: out + t == old(out) + PutList(PutMembership, xs, t)
    {
      hide PutMembership, PutU32, PutList, Pending;
      U32(|xs| % U32_LIMIT);
      ghost var before := out;
      PendingStart(PutMembership, xs, before);
      for k := 0 to |xs|
        invariant Pending(PutMembership, xs, k, before, out)
      {
        ghost var mid := out;
        Member(xs[k]);
        PendingNext(PutMembership, xs, k, before, mid, out);
      }
      PendingDone(PutMembership, xs, old(out), before, out);
    }

    method Events(xs: seq<FailureEvent>) returns (st: Status)
      modifies this
      ensures st.Fine? <==> forall x :: x in xs ==> WritableEvent(x)
      ensures st.Fine? ==> forall t :: out + t == old(out) + PutList(PutEvent, xs, t)
    {
      hide PutEvent, PutU32, PutList, Pending, WritableEvent;
      U32(|xs| % U32_LIMIT);
      ghost var before := out;
      PendingStart(PutEvent, xs, before);
      for k := 0 to |xs|
        invariant Pending(PutEvent, xs, k, before, out)
        invariant forall j :: 0 <= j < k ==> WritableEvent(xs[j])
      {
        ghost var mid := out;
        :- Event(xs[k]);
        PendingNext(PutEvent, xs, k, before, mid, out);
      }
      PendingDone(PutEvent, xs, old(out), before, out);
      return Fine;
    }

    method Routes(xs: seq<RouteEntry>) returns (st: Status)
      modifies this
      ensures st.Fine? <==> forall x :: x in xs ==> FitsRoute(x)
      ensures st.Fine? ==> forall t :: out + t == old(out) + PutList(PutRoute, xs, t)
    {
      hide PutRoute, PutU32, PutList, Pending, FitsRoute;
      U32(|xs| % U32_LIMIT);
      ghost var before := out;
      PendingStart(PutRoute, xs, before);
      for k := 0 to |xs|
        invariant Pending(PutRoute, xs, k, before, out)
        invariant forall j :: 0 <= j < k ==> FitsRoute(xs[j])
      {
        ghost var mid := out;
        :- Route(xs[k]);
        PendingNext(PutRoute, xs, k, before, mid, out);
      }
      PendingDone(PutRoute, xs, old(out), before, out);
      return Fine;
    }

    method OptAssignment(o: Option<Types.Assignment>)
      modifies this
      ensures forall t :: out + t == old(out) + PutOpt(PutAssignment, o, t)
    {
      hide PutAssignment, PutBool;
      Bool(o.Some?);
      if o.Some? {
        Assignment(o.value);
      }
    }

    method OptRoute(o: Option<RouteEntry>) returns (st: Status)
      modifies this
      ensures st.Fine? <==> (o.Some? ==> FitsRoute(o.value))
      ensures st.Fine? ==> forall t :: out + t == old(out) + PutOpt(PutRoute, o, t)
    {
      hide PutRoute, PutBool, FitsRoute;
      Bool(o.Some?);
      if o.Some? {
        :- Route(o.value);
      }
      return Fine;
    }

    method Transaction(s: Snapshot) returns (st: Status)
      modifies this
      ensures st.Fine? <==> (s.hasTxn && s.pendingRoute.Some? ==> FitsRoute(s.pendingRoute.value))
      ensures st.Fine? ==> forall t :: out + t == old(out) + PutTxn(s, t)
    {
      hide PutBool, PutU8, PutOpt, FitsRoute;
      Bool(s.hasTxn);
      if s.hasTxn {
        U8(MilestoneRank(s.txnMilestone));
        OptAssignment(s.pendingAssignment);
        OptAssignment(s.sourceAssignment);
        :- OptRoute(s.pendingRoute);
      }
      return Fine;
    }

    method Payload(s: Snapshot) returns (st: Status)
      modifies this
      ensures st.Fine? <==> Writable(s)
      ensures st.Fine? ==> forall t :: out + t == old(out) + PutPayload(s, t)
    {
      hide PutU32, PutWords, HeadWords, PutList, PutIds, PutTxn, WritableService, FitsDomain, WritableEvent, FitsRoute;
      U32(s.formatVersion);
      Words(HeadWords(s));
      :- Services(s.services);
      Assignments(s.assignments);
      :- Domains(s.domains);
      Members(s.memberships);
      :- Events(s.evidence);
      :- Routes(s.routes);
      Ids(s.fencedBoots);
      :- Transaction(s);
      return Fine;
    }
  }

  /** Builds the payload, then the envelope around it. */
  method EncodeBlob(s: Snapshot) returns (r: Result<Bytes, Fault>)
    ensures r == Encode(s)
  {
    hide PutPayload, Writable, Fnv;
    if s.formatVersion != VERSION {
      return Failure(UnsupportedVersion);
    }
    var w := new Writer();
    var st := w.Payload(s);
    if st.Thrown? {
      return Failure(Unwritable);
    }
    assert w.out == w.out + [] == [] + PutPayload(s, []) == PutPayload(s, []);
    var body := MAGIC + LittleEndian(4, VERSION) + LittleEndian(8, |w.out|) + w.out;
    var hash := Fnv1a(body);
    return Success(body + LittleEndian(8, hash));
  }
}
