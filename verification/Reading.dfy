/** The decoder as it runs: a reader that advances a cursor over the payload, and the loops and sets
    of the semantic validation. Proved to compute `Decode`. */
module Reading {
  import opened Types
  import opened Endian
  import opened Wire
  import opened Records
  import opened Persistence
  import opened Checksums

  datatype Read<+T> = Got(value: T) | Stop(fault: Fault) {
    predicate IsFailure() { Stop? }

    function PropagateFailure<U>(): Read<U>
      requires Stop?
    {
      Stop(fault)
    }

    function Extract(): T
      requires Got?
    {
      value
    }
  }

  /** A read did what the decoder of that field says: same value and same rest, or same fault. */
  ghost predicate Reads<T>(p: Parsed<T>, r: Read<T>, rest: Bytes) {
    match p
    case Ok(v, s) => r == Got(v) && rest == s
    case Bad(f) => r == Stop(f)
  }

  /** After `k` of `n` elements the rest of the list decides the outcome. */
  ghost predicate Progress<T>(get: Getter<T>, n: nat, start: Bytes, k: nat, xs: seq<T>, rest: Bytes)
    requires k <= n
  {
    match GetAll(get, n - k, rest)
    case Ok(ys, s) => GetAll(get, n, start) == Ok(xs + ys, s)
    case Bad(f) => GetAll(get, n, start) == Bad(f)
  }

  lemma ProgressStart<T>(get: Getter<T>, n: nat, start: Bytes)
    ensures Progress(get, n, start, 0, [], start)
  {
    if GetAll(get, n, start).Ok? {
      assert [] + GetAll(get, n, start).value == GetAll(get, n, start).value;
    }
  }

  lemma ProgressNext<T>(get: Getter<T>, n: nat, start: Bytes, k: nat, xs: seq<T>, rest: Bytes)
    requires k < n && Progress(get, n, start, k, xs, rest)
    ensures get(rest).Bad? ==> GetAll(get, n, start) == Bad(get(rest).fault)
    ensures get(rest).Ok? ==> Progress(get, n, start, k + 1, xs + [get(rest).value], get(rest).rest)
  {
    if get(rest).Ok? {
      var tail := GetAll(get, n - k - 1, get(rest).rest);
      if tail.Ok? {
        assert xs + ([get(rest).value] + tail.value) == (xs + [get(rest).value]) + tail.value;
      }
    }
  }

  lemma ProgressDone<T>(get: Getter<T>, n: nat, start: Bytes, xs: seq<T>, rest: Bytes)
    requires Progress(get, n, start, n, xs, rest)
    ensures GetAll(get, n, start) == Ok(xs, rest)
  {
    assert xs + [] == xs;
  }

  class Reader {
    const bytes: Bytes
    var i: nat

    constructor (bytes: Bytes)
      ensures Valid() && Rest() == bytes
    {
      this.bytes := bytes;
      i := 0;
    }

    ghost predicate Valid()
      reads this
    {
      i <= |bytes|
    }

    ghost function Rest(): Bytes
      requires Valid()
      reads this
    {
      bytes[i..]
    }

    method U8() returns (r: Read<u8>)
      requires Valid()
      modifies this`i
      ensures Valid() && Reads(GetU8(old(Rest())), r, Rest())
    {
      if i + 1 > |bytes| {
        return Stop(Truncated);
      }
      i := i + 1;
      return Got(bytes[i - 1]);
    }

    method U32() returns (r: Read<u32>)
      requires Valid()
      modifies this`i
      ensures Valid() && Reads(GetU32(old(Rest())), r, Rest())
    {
      hide FromLittleEndian;
      WidthFacts();
      if i + 4 > |bytes| {
        return Stop(Truncated);
      }
      assert Rest()[..4] == bytes[i..i + 4] && Rest()[4..] == bytes[i + 4..];
      i := i + 4;
      return Got(FromLittleEndian(bytes[i - 4..i]));
    }

    method U64() returns (r: Read<u64>)
      requires Valid()
      modifies this`i
      ensures Valid() && Reads(GetU64(old(Rest())), r, Rest())
    {
      hide FromLittleEndian;
      WidthFacts();
      if i + 8 > |bytes| {
        return Stop(Truncated);
      }
      assert Rest()[..8] == bytes[i..i + 8] && Rest()[8..] == bytes[i + 8..];
      i := i + 8;
      return Got(FromLittleEndian(bytes[i - 8..i]));
    }

    method Bool() returns (r: Read<bool>)
      requires Valid()
      modifies this`i
      ensures Valid() && Reads(GetBool(old(Rest())), r, Rest())
    {
      hide GetU8;
      var v :- U8();
      if v > 1 {
        return Stop(InvalidBool);
      }
      return Got(v == 1);
    }

    /** An enumeration byte with its range check. */
    method Below(n: nat) returns (r: Read<u8>)
      requires Valid()
      modifies this`i
      ensures Valid() && Reads(GetBelow(n, old(Rest())), r, Rest())
      ensures r.Got? ==> r.value < n
    {
      hide GetU8;
      var v :- U8();
      if v >= n {
        return Stop(InvalidEnum);
      }
      return Got(v);
    }

    method Double() returns (r: Read<DoubleBits>)
      requires Valid()
      modifies this`i
      ensures Valid() && Reads(GetDouble(old(Rest())), r, Rest())
    {
      hide GetU64;
      var v :- U64();
      if !IsFinite(v) {
        return Stop(NonFinite);
      }
      return Got(v);
    }

    method Text() returns (r: Read<Bytes>)
      requires Valid()
      modifies this`i
      ensures Valid() && Reads(GetString(old(Rest())), r, Rest())
    {
      hide GetU32;
      var n :- U32();
      if n > MAX_STRING {
        return Stop(StringTooLarge);
      }
      if i + n > |bytes| {
        return Stop(Truncated);
      }
      assert Rest()[..n] == bytes[i..i + n] && Rest()[n..] == bytes[i + n..];
      i := i + n;
      return Got(bytes[i - n..i]);
    }

    method Signed() returns (r: Read<i64>)
      requires Valid()
      modifies this`i
      ensures Valid() && Reads(GetSigned(old(Rest())), r, Rest())
    {
      hide GetU64;
      var v :- U64();
      return Got(if v < I64_LIMIT then v else v - U64_LIMIT);
    }

    /** A list length with its limit. */
    method Count() returns (r: Read<u32>)
      requires Valid()
      modifies this`i
      ensures Valid()
      ensures match GetU32(old(Rest()))
              case Ok(n, s) => r == (if n > MAX_COUNT then Stop(CountTooLarge) else Got(n)) && Rest() == s
              case Bad(f) => r == Stop(f)
    {
      hide GetU32;
      var n :- U32();
      if n > MAX_COUNT {
        return Stop(CountTooLarge);
      }
      return Got(n);
    }

    method Words(n: nat) returns (r: Read<seq<u64>>)
      requires Valid()
      modifies this`i
      ensures Valid() && Reads(GetWords(n, old(Rest())), r, Rest())
      ensures r.Got? ==> |r.value| == n
    {
      hide GetU64, Progress;
      var xs := [];
      ghost var start := Rest();
      WordsAreAList(n, start);
      ProgressStart(GetU64, n, start);
      for k := 0 to n
        invariant Valid() && |xs| == k && Progress(GetU64, n, start, k, xs, Rest())
      {
        ProgressNext(GetU64, n, start, k, xs, Rest());
        var x :- U64();
        xs := xs + [x];
      }
      ProgressDone(GetU64, n, start, xs, Rest());
      return Got(xs);
    }

    method Ids() returns (r: Read<seq<u64>>)
      requires Valid()
      modifies this`i
      ensures Valid() && Reads(GetIds(old(Rest())), r, Rest())
    {
      hide GetU64, GetU32, Progress;
      var n :- Count();
      var xs := [];
      ghost var start := Rest();
      ProgressStart(GetU64, n, start);
      for k := 0 to n
        invariant Valid() && Progress(GetU64, n, start, k, xs, Rest())
      {
        ProgressNext(GetU64, n, start, k, xs, Rest());
        var x :- U64();
        xs := xs + [x];
      }
      ProgressDone(GetU64, n, start, xs, Rest());
      return Got(xs);
    }

    method OptId() returns (r: Read<Option<u64>>)
      requires Valid()
      modifies this`i
      ensures Valid() && Reads(GetOptId(old(Rest())), r, Rest())
    {
      hide GetBool, GetU64;
      var present :- Bool();
      if !present {
        return Got(None);
      }
      var x :- U64();
      return Got(Some(x));
    }

    method ReadAssignment() returns (r: Read<Assignment>)
      requires Valid()
      modifies this`i
      ensures Valid() && Reads(GetAssignment(old(Rest())), r, Rest())
    {
      hide GetU8, GetU32, GetU64, GetBool, GetBelow, GetString, GetDouble, GetIds, GetOptId, GetWords;
      var v :- Words(ASSIGNMENT_WORDS);
      var claims :- Ids();
      var continuity :- Ids();
      var state :- Below(8);
      var provisory :- Bool();
      var provenance :- Below(7);
      return Got(AssignmentOf(v, claims, continuity, AssignmentStateAt(state), provisory, provenance));
    }

    method ReadCompatibility() returns (r: Read<Compatibility>)
      requires Valid()
      modifies this`i
      ensures Valid() && Reads(GetCompatibility(old(Rest())), r, Rest())
    {
      hide GetU8, GetU32, GetU64, GetBool, GetBelow, GetString, GetDouble, GetIds, GetOptId, GetWords;
      var model :- Text();
      var abi :- Text();
      var profile :- OptId();
      var dependencies :- Ids();
      var capabilities :- Ids();
      return Got(Compatibility(model, abi, profile, dependencies, capabilities));
    }

    method ReadClass() returns (r: Read<DomainClass>)
      requires Valid()
      modifies this`i
      ensures Valid() && Reads(GetClass(old(Rest())), r, Rest())
    {
      hide GetU8, GetU32, GetU64, GetBool, GetBelow, GetString, GetDouble, GetIds, GetOptId, GetWords;
      var c :- Below(10);
      return Got(c);
    }

    method Classes() returns (r: Read<seq<DomainClass>>)
      requires Valid()
      modifies this`i
      ensures Valid() && Reads(GetList(GetClass, old(Rest())), r, Rest())
    {
      hide GetClass, GetU32, Progress;
      var n :- Count();
      var xs := [];
      ghost var start := Rest();
      ProgressStart(GetClass, n, start);
      for k := 0 to n
        invariant Valid() && Progress(GetClass, n, start, k, xs, Rest())
      {
        ProgressNext(GetClass, n, start, k, xs, Rest());
        var x :- ReadClass();
        xs := xs + [x];
      }
      ProgressDone(GetClass, n, start, xs, Rest());
      return Got(xs);
    }

    method ReadDomainRequirement() returns (r: Read<DomainRequirement>)
      requires Valid()
      modifies this`i
      ensures Valid() && Reads(GetDomainRequirement(old(Rest())), r, Rest())
    {
      hide GetU8, GetU32, GetU64, GetBool, GetBelow, GetString, GetDouble, GetIds, GetOptId, GetWords, GetList;
      var independence :- Bool();
      var hosts :- U32();
      var devices :- U32();
      var classes :- Classes();
      return Got(DomainRequirement(independence, hosts, devices, classes));
    }

    method ReadResource() returns (r: Read<ResourceRequirement>)
      requires Valid()
      modifies this`i
      ensures Valid() && Reads(GetResource(old(Rest())), r, Rest())
    {
      hide GetU8, GetU32, GetU64, GetBool, GetBelow, GetString, GetDouble, GetIds, GetOptId, GetWords;
      var cls :- Text();
      var amount :- Double();
      var one :- Bool();
      return Got(ResourceRequirement(cls, amount, one));
    }

    method Resources() returns (r: Read<seq<ResourceRequirement>>)
      requires Valid()
      modifies this`i
      ensures Valid() && Reads(GetList(GetResource, old(Rest())), r, Rest())
    {
      hide GetResource, GetU32, Progress;
      var n :- Count();
      var xs := [];
      ghost var start := Rest();
      ProgressStart(GetResource, n, start);
      for k := 0 to n
        invariant Valid() && Progress(GetResource, n, start, k, xs, Rest())
      {
        ProgressNext(GetResource, n, start, k, xs, Rest());
        var x :- ReadResource();
        xs := xs + [x];
      }
      ProgressDone(GetResource, n, start, xs, Rest());
      return Got(xs);
    }

    method ReadRecovery() returns (r: Read<RecoveryObjective>)
      requires Valid()
      modifies this`i
      ensures Valid() && Reads(GetRecovery(old(Rest())), r, Rest())
    {
      hide GetU8, GetU32, GetU64, GetBool, GetBelow, GetString, GetDouble, GetIds, GetOptId, GetWords;
      var rto :- U64();
      var anchor :- Below(3);
      var continuity :- Below(7);
      var loss :- U64();
      var checkpoint :- OptId();
      var verified :- Bool();
      return Got(RecoveryObjective(rto, anchor, ContinuityAt(continuity), loss, checkpoint, verified));
    }

    method ReadAntiFlapping() returns (r: Read<AntiFlapping>)
      requires Valid()
      modifies this`i
      ensures Valid() && Reads(GetAntiFlapping(old(Rest())), r, Rest())
    {
      hide GetU8, GetU32, GetU64, GetBool, GetBelow, GetString, GetDouble, GetIds, GetOptId, GetWords;
      var attempts :- U32();
      var cooldown :- U32();
      var hysteresis :- U32();
      var manual :- Bool();
      return Got(AntiFlapping(attempts, cooldown, hysteresis, manual));
    }

    method ReadServiceTail() returns (r: Read<ServiceTail>)
      requires Valid()
      modifies this`i
      ensures Valid() && Reads(GetServiceTail(old(Rest())), r, Rest())
    {
      hide GetU8, GetU32, GetU64, GetBool, GetBelow, GetString, GetDouble, GetIds, GetOptId, GetWords, GetRecovery,
        GetAntiFlapping;
      var recovery :- ReadRecovery();
      var failback :- Below(3);
      var limits :- ReadAntiFlapping();
      var state :- Ids();
      var provenance :- Below(7);
      var policy :- U64();
      return Got(ServiceTail(recovery, FailbackAt(failback), limits, state, provenance, policy));
    }

    method ReadService() returns (r: Read<ServiceDefinition>)
      requires Valid()
      modifies this`i
      ensures Valid() && Reads(GetService(old(Rest())), r, Rest())
    {
      hide GetU8, GetU32, GetU64, GetBool, GetBelow, GetString, GetDouble, GetIds, GetOptId, GetWords, GetCompatibility,
        GetDomainRequirement, GetList, GetServiceTail;
      var service :- U64();
      var generation :- U64();
      var config :- U64();
      var name :- Text();
      var role :- Below(3);
      var first :- U32();
      var count :- U32();
      var compatibility :- ReadCompatibility();
      var domains :- ReadDomainRequirement();
      var resources :- Resources();
      var t :- ReadServiceTail();
      return Got(ServiceDefinition(service, generation, config, name, role, first, count, compatibility, domains,
                                   resources,
                                   t.recovery, t.failback, t.antiFlapping, t.requiredState, t.provenance,
                                     t.policyGeneration));
    }

    method ReadDomain() returns (r: Read<DomainDecl>)
      requires Valid()
      modifies this`i
      ensures Valid() && Reads(GetDomain(old(Rest())), r, Rest())
    {
      hide GetU8, GetU32, GetU64, GetBool, GetBelow, GetString, GetDouble, GetIds, GetOptId, GetWords;
      var id :- U64();
      var generation :- U64();
      var cls :- Below(10);
      var name :- Text();
      var parent :- OptId();
      var provenance :- Below(7);
      return Got(DomainDecl(id, generation, cls, name, parent, provenance));
    }

    method ReadMembership() returns (r: Read<Membership>)
      requires Valid()
      modifies this`i
      ensures Valid() && Reads(GetMembership(old(Rest())), r, Rest())
    {
      hide GetU8, GetU32, GetU64, GetBool, GetBelow, GetString, GetDouble, GetIds, GetOptId, GetWords;
      var target :- U64();
      var domain :- U64();
      var known :- Bool();
      return Got(Membership(target, domain, known));
    }

    method ReadTimestamp() returns (r: Read<Timestamp>)
      requires Valid()
      modifies this`i
      ensures Valid() && Reads(GetTimestamp(old(Rest())), r, Rest())
    {
      hide GetU8, GetU32, GetU64, GetBool, GetBelow, GetString, GetDouble, GetIds, GetOptId, GetWords, GetSigned;
      var wall :- Signed();
      var seqNo :- U64();
      return Got(Timestamp(wall, seqNo));
    }

    method ReadSubject() returns (r: Read<Subject>)
      requires Valid()
      modifies this`i
      ensures Valid() && Reads(GetSubject(old(Rest())), r, Rest())
    {
      hide GetU8, GetU32, GetU64, GetBool, GetBelow, GetString, GetDouble, GetIds, GetOptId, GetWords, GetTimestamp;
      var target :- OptId();
      var targetGeneration :- OptId();
      var domain :- OptId();
      var observed :- ReadTimestamp();
      var received :- ReadTimestamp();
      return Got(Subject(target, targetGeneration, domain, observed, received));
    }

    method ReadEvent() returns (r: Read<FailureEvent>)
      requires Valid()
      modifies this`i
      ensures Valid() && Reads(GetEvent(old(Rest())), r, Rest())
    {
      hide GetU8, GetU32, GetU64, GetBool, GetBelow, GetString, GetDouble, GetIds, GetOptId, GetWords, GetSubject;
      var v :- Words(4);
      var category :- Below(13);
      var status :- Below(5);
      var provenance :- Below(7);
      var severity :- Below(4);
      var confidence :- Double();
      var x :- ReadSubject();
      var mechanism :- Text();
      var detail :- Text();
      var affected :- Ids();
      var revalidates :- Bool();
      return Got(FailureEvent(v[0], v[1], v[2], v[3], category, StatusAt(status), provenance, severity, confidence,
                              x.target, x.targetGeneration, x.domain, x.observed, x.received,
                              mechanism, detail, affected, revalidates));
    }

    method ReadRoute() returns (r: Read<RouteEntry>)
      requires Valid()
      modifies this`i
      ensures Valid() && Reads(GetRoute(old(Rest())), r, Rest())
    {
      hide GetU8, GetU32, GetU64, GetBool, GetBelow, GetString, GetDouble, GetIds, GetOptId, GetWords;
      var v :- Words(ROUTE_WORDS);
      var state :- Below(6);
      var transport :- Text();
      var provenance :- Below(7);
      return Got(RouteOf(v, RouteStateAt(state), transport, provenance));
    }

    method Services() returns (r: Read<seq<ServiceDefinition>>)
      requires Valid()
      modifies this`i
      ensures Valid() && Reads(GetList(GetService, old(Rest())), r, Rest())
    {
      hide GetService, GetU32, Progress;
      var n :- Count();
      var xs := [];
      ghost var start := Rest();
      ProgressStart(GetService, n, start);
      for k := 0 to n
        invariant Valid() && Progress(GetService, n, start, k, xs, Rest())
      {
        ProgressNext(GetService, n, start, k, xs, Rest());
        var x :- ReadService();
        xs := xs + [x];
      }
      ProgressDone(GetService, n, start, xs, Rest());
      return Got(xs);
    }

    method Assignments() returns (r: Read<seq<Assignment>>)
      requires Valid()
      modifies this`i
      ensures Valid() && Reads(GetList(GetAssignment, old(Rest())), r, Rest())
    {
      hide GetAssignment, GetU32, Progress;
      var n :- Count();
      var xs := [];
      ghost var start := Rest();
      ProgressStart(GetAssignment, n, start);
      for k := 0 to n
        invariant Valid() && Progress(GetAssignment, n, start, k, xs, Rest())
      {
        ProgressNext(GetAssignment, n, start, k, xs, Rest());
        var x :- ReadAssignment();
        xs := xs + [x];
      }
      ProgressDone(GetAssignment, n, start, xs, Rest());
      return Got(xs);
    }

    method Domains() returns (r: Read<seq<DomainDecl>>)
      requires Valid()
      modifies this`i
      ensures Valid() && Reads(GetList(GetDomain, old(Rest())), r, Rest())
    {
      hide GetDomain, GetU32, Progress;
      var n :- Count();
      var xs := [];
      ghost var start := Rest();
      ProgressStart(GetDomain, n, start);
      for k := 0 to n
        invariant Valid() && Progress(GetDomain, n, start, k, xs, Rest())
      {
        ProgressNext(GetDomain, n, start, k, xs, Rest());
        var x :- ReadDomain();
        xs := xs + [x];
      }
      ProgressDone(GetDomain, n, start, xs, Rest());
      return Got(xs);
    }

    method Memberships() returns (r: Read<seq<Membership>>)
      requires Valid()
      modifies this`i
      ensures Valid() && Reads(GetList(GetMembership, old(Rest())), r, Rest())
    {
      hide GetMembership, GetU32, Progress;
      var n :- Count();
      var xs := [];
      ghost var start := Rest();
      ProgressStart(GetMembership, n, start);
      for k := 0 to n
        invariant Valid() && Progress(GetMembership, n, start, k, xs, Rest())
      {
        ProgressNext(GetMembership, n, start, k, xs, Rest());
        var x :- ReadMembership();
        xs := xs + [x];
      }
      ProgressDone(GetMembership, n, start, xs, Rest());
      return Got(xs);
    }

    method Events() returns (r: Read<seq<FailureEvent>>)
      requires Valid()
      modifies this`i
      ensures Valid() && Reads(GetList(GetEvent, old(Rest())), r, Rest())
    {
      hide GetEvent, GetU32, Progress;
      var n :- Count();
      var xs := [];
      ghost var start := Rest();
      ProgressStart(GetEvent, n, start);
      for k := 0 to n
        invariant Valid() && Progress(GetEvent, n, start, k, xs, Rest())
      {
        ProgressNext(GetEvent, n, start, k, xs, Rest());
        var x :- ReadEvent();
        xs := xs + [x];
      }
      ProgressDone(GetEvent, n, start, xs, Rest());
      return Got(xs);
    }

    method Routes() returns (r: Read<seq<RouteEntry>>)
      requires Valid()
      modifies this`i
      ensures Valid() && Reads(GetList(GetRoute, old(Rest())), r, Rest())
    {
      hide GetRoute, GetU32, Progress;
      var n :- Count();
      var xs := [];
      ghost var start := Rest();
      ProgressStart(GetRoute, n, start);
      for k := 0 to n
        invariant Valid() && Progress(GetRoute, n, start, k, xs, Rest())
      {
        ProgressNext(GetRoute, n, start, k, xs, Rest());
        var x :- ReadRoute();
        xs := xs + [x];
      }
      ProgressDone(GetRoute, n, start, xs, Rest());
      return Got(xs);
    }

    method OptAssignment() returns (r: Read<Option<Assignment>>)
      requires Valid()
      modifies this`i
      ensures Valid() && Reads(GetOpt(GetAssignment, old(Rest())), r, Rest())
    {
      hide GetBool, GetAssignment;
      var present :- Bool();
      if !present {
        return Got(None);
      }
      var x :- ReadAssignment();
      return Got(Some(x));
    }

    method OptRoute() returns (r: Read<Option<RouteEntry>>)
      requires Valid()
      modifies this`i
      ensures Valid() && Reads(GetOpt(GetRoute, old(Rest())), r, Rest())
    {
      hide GetBool, GetRoute;
      var present :- Bool();
      if !present {
        return Got(None);
      }
      var x :- ReadRoute();
      return Got(Some(x));
    }

    method Transaction() returns (r: Read<Txn>)
      requires Valid()
      modifies this`i
      ensures Valid() && Reads(GetTxn(old(Rest())), r, Rest())
    {
      hide GetBool, GetBelow, GetOpt;
      var has :- Bool();
      if !has {
        return Got(NO_TXN);
      }
      var milestone :- Below(6);
      var pending :- OptAssignment();
      var source :- OptAssignment();
      var route :- OptRoute();
      if pending.Some? && pending.value.state != Authorized {
        return Stop(PendingNotAuthorized);
      }
      return Got(Txn(true, MilestoneAt(milestone), pending, source, route));
    }

    method Payload() returns (r: Read<Snapshot>)
      requires Valid()
      modifies this`i
      ensures Valid() && Reads(GetPayload(old(Rest())), r, Rest())
    {
      hide GetU32, GetWords, GetList, GetIds, GetTxn;
      var version :- U32();
      if version != VERSION {
        return Stop(UnsupportedVersion);
      }
      var v :- Words(5);
      var services :- Services();
      var assignments :- Assignments();
      var domains :- Domains();
      var memberships :- Memberships();
      var evidence :- Events();
      var routes :- Routes();
      var fenced :- Ids();
      var txn :- Transaction();
      return Got(Snapshot(version, Epoch(v[0], v[1], v[2]), v[3], v[4], services, assignments, domains, memberships,
                          evidence, routes, fenced, txn.has, txn.milestone, txn.pending, txn.source, txn.route));
    }
  }

  lemma {:induction false} WordsAreAList(n: nat, s: Bytes)
    ensures GetWords(n, s) == GetAll(GetU64, n, s)
  {
    if n != 0 && GetU64(s).Ok? {
      WordsAreAList(n - 1, GetU64(s).rest);
    }
  }

  // ----- validation and the envelope -------------------------------------------------

  /** The semantic checks, in the decoder's order, with the sets it keeps. */
  method ValidateRecord(s: Snapshot) returns (fault: Option<Fault>)
    ensures fault == SemanticFault(s)
  {
    var ids: set<u64> := {};
    for i := 0 to |s.services|
      invariant ids == set k | 0 <= k < i :: s.services[k].service
      invariant DistinctServices(s.services[..i])
    {
      if s.services[i].service in ids {
        return Some(DuplicateService);
      }
      ids := ids + {s.services[i].service};
    }
    assert s.services[..|s.services|] == s.services;
    for i := 0 to |s.services|
      invariant forall k :: 0 <= k < i ==> s.services[k].slotsCount != 0
    {
      if s.services[i].slotsCount == 0 {
        return Some(ZeroSlots);
      }
    }
    assert forall id :: id in ids <==> KnownService(s.services, id);
    fault := ValidateAssignments(s, ids);
  }

  method ValidateAssignments(s: Snapshot, ids: set<u64>) returns (fault: Option<Fault>)
    requires forall id :: id in ids <==> KnownService(s.services, id)
    ensures fault == AssignmentFault(s.services, s.assignments, 0)
  {
    hide KnownService;
    var seen: set<SlotKey> := {};
    for i := 0 to |s.assignments|
      invariant AssignmentFault(s.services, s.assignments, 0) == AssignmentFault(s.services, s.assignments, i)
      invariant seen == set k | 0 <= k < i && s.assignments[k].state.Active? :: s.assignments[k].slot
    {
      var a := s.assignments[i];
      if a.slot.service !in ids {
        return Some(UnknownService);
      }
      if a.state.Active? {
        if a.slot in seen {
          return Some(DuplicateActive);
        }
        seen := seen + {a.slot};
      }
      if a.authorityGeneration == 0 {
        return Some(NullAuthority);
      }
    }
    return None;
  }

  /** Opens the envelope, reads the payload to its end and validates the record. */
  method DecodeBlob(blob: Bytes) returns (r: Result<Snapshot, Fault>)
    ensures r == Decode(blob)
  {
    hide GetPayload, SemanticFault, Fnv, FromLittleEndian;
    if |blob| < SHORTEST {
      return Failure(TooShort);
    }
    if blob[..8] != MAGIC {
      return Failure(BadMagic);
    }
    var hdr := new Reader(blob[8..]);
    var version := hdr.U32();
    assert blob[8..][..4] == blob[8..12] && blob[8..][4..] == blob[12..];
    if version != Got(VERSION) {
      return Failure(UnsupportedVersion);
    }
    var length := hdr.U64();
    assert blob[12..][..8] == blob[12..HEADER];
    if length.value > MAX_BLOB {
      return Failure(PayloadTooLarge);
    }
    if HEADER + length.value + 8 != |blob| {
      return Failure(LengthMismatch);
    }
    var hash := Fnv1a(blob[..HEADER + length.value]);
    if hash != FromLittleEndian(blob[HEADER + length.value..]) {
      return Failure(ChecksumMismatch);
    }
    var reader := new Reader(blob[HEADER..HEADER + length.value]);
    var s := reader.Payload();
    if s.Stop? {
      return Failure(s.fault);
    }
    if reader.i != |reader.bytes| {
      return Failure(TrailingGarbage);
    }
    var fault := ValidateRecord(s.value);
    if fault.Some? {
      return Failure(fault.value);
    }
    return Success(s.value);
  }
}
