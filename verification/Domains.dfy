/** Failure domains: a registry of declared domains with parent links, target memberships,
    and the shared-risk question `overlaps`. */
module Domains {
  import opened Types

  const WALK_LIMIT: nat := 64

  datatype Registry = Registry(domains: seq<DomainDecl>, memberships: seq<Membership>)

  const EMPTY_REGISTRY := Registry([], [])

  ghost predicate DistinctDomains(ds: seq<DomainDecl>) {
    forall i, j :: 0 <= i < j < |ds| ==> ds[i].id != ds[j].id
  }

  ghost predicate DistinctMemberships(ms: seq<Membership>) {
    forall i, j :: 0 <= i < j < |ms| ==> ms[i].target != ms[j].target || ms[i].domain != ms[j].domain
  }

  ghost predicate ValidRegistry(r: Registry) {
    && DistinctDomains(r.domains)
    && DistinctMemberships(r.memberships)
    && forall i :: 0 <= i < |r.domains| ==> r.domains[i].id != 0
  }

  // ----- declarations ----------------------------------------------------------------

  function Lookup(ds: seq<DomainDecl>, id: u64): (r: Option<DomainDecl>)
    ensures r.Some? ==> r.value in ds && r.value.id == id
    ensures r.None? ==> forall d :: d in ds ==> d.id != id
  {
    if ds == [] then None else if ds[0].id == id then Some(ds[0]) else Lookup(ds[1..], id)
  }

  function Declared(ds: seq<DomainDecl>): set<u64> {
    set d | d in ds :: d.id
  }

  function Declare(ds: seq<DomainDecl>, d: DomainDecl): seq<DomainDecl> {
    if ds == [] then [d]
    else if ds[0].id == d.id then (if d.generation >= ds[0].generation then [d] + ds[1..] else ds)
    else [ds[0]] + Declare(ds[1..], d)
  }

  function SetMember(ms: seq<Membership>, m: Membership): seq<Membership> {
    if ms == [] then [m]
    else if ms[0].target == m.target && ms[0].domain == m.domain then [m] + ms[1..]
    else [ms[0]] + SetMember(ms[1..], m)
  }

  lemma {:induction false} DeclareAt(ds: seq<DomainDecl>, d: DomainDecl, i: nat)
    requires i <= |ds| && forall k :: 0 <= k < i ==> ds[k].id != d.id
    ensures i == |ds| ==> Declare(ds, d) == ds + [d]
    ensures i < |ds| && ds[i].id == d.id ==>
              Declare(ds, d) == if d.generation >= ds[i].generation then ds[i := d] else ds
    decreases i
  {
    if i != 0 {
      DeclareAt(ds[1..], d, i - 1);
      assert ds == [ds[0]] + ds[1..];
    }
  }

  lemma {:induction false} SetMemberAt(ms: seq<Membership>, m: Membership, i: nat)
    requires i <= |ms| && forall k :: 0 <= k < i ==> ms[k].target != m.target || ms[k].domain != m.domain
    ensures i == |ms| ==> SetMember(ms, m) == ms + [m]
    ensures i < |ms| && ms[i].target == m.target && ms[i].domain == m.domain ==> SetMember(ms, m) == ms[i := m]
    decreases i
  {
    if i != 0 {
      SetMemberAt(ms[1..], m, i - 1);
      assert ms == [ms[0]] + ms[1..];
    }
  }

  class DomainRegistry {
    var domains: seq<DomainDecl>
    var memberships: seq<Membership>

    ghost function State(): Registry
      reads this
    {
      Registry(domains, memberships)
    }

    constructor ()
      ensures State() == EMPTY_REGISTRY
    {
      domains, memberships := [], [];
    }

    method DeclareDomain(d: DomainDecl)
      requires ValidRegistry(State())
      modifies this`domains
      ensures ValidRegistry(State())
      ensures domains == if d.id == 0 then old(domains) else Declare(old(domains), d)
    {
      if d.id == 0 {
        return;
      }
      for i := 0 to |domains|
        invariant domains == old(domains)
        invariant forall k :: 0 <= k < i ==> domains[k].id != d.id
      {
        if domains[i].id == d.id {
          DeclareAt(domains, d, i);
          if d.generation >= domains[i].generation {
            domains := domains[i := d];
          }
          return;
        }
      }
      DeclareAt(domains, d, |domains|);
      domains := domains + [d];
    }

    method SetMembership(m: Membership)
      requires ValidRegistry(State())
      modifies this`memberships
      ensures ValidRegistry(State())
      ensures memberships == SetMember(old(memberships), m)
    {
      for i := 0 to |memberships|
        invariant memberships == old(memberships)
        invariant forall k :: 0 <= k < i ==> memberships[k].target != m.target || memberships[k].domain != m.domain
      {
        if memberships[i].target == m.target && memberships[i].domain == m.domain {
          SetMemberAt(memberships, m, i);
          memberships := memberships[i := m];
          return;
        }
      }
      SetMemberAt(memberships, m, |memberships|);
      memberships := memberships + [m];
    }
  }

  // ----- the bounded walk to the root ------------------------------------------------

  /** At most `fuel` declared domains, starting at `cur` and following parent links. */
  function Walk(ds: seq<DomainDecl>, cur: Option<u64>, fuel: nat): (out: seq<u64>)
    ensures |out| <= fuel
    decreases fuel
  {
    if cur.None? || fuel == 0 then []
    else
      match Lookup(ds, cur.value)
      case None => []
      case Some(d) => [d.id] + Walk(ds, d.parent, fuel - 1)
  }

  function AncestorsOf(ds: seq<DomainDecl>, id: u64): seq<u64> {
    Walk(ds, Some(id), WALK_LIMIT)
  }

  method ComputeAncestors(ds: seq<DomainDecl>, id: u64) returns (out: seq<u64>)
    ensures out == AncestorsOf(ds, id)
  {
    out := [];
    var cur, guard := Some(id), 0;
    while cur.Some? && guard < WALK_LIMIT
      invariant guard <= WALK_LIMIT
      invariant out + Walk(ds, cur, WALK_LIMIT - guard) == AncestorsOf(ds, id)
    {
      guard := guard + 1;
      var d := Lookup(ds, cur.value);
      if d.None? {
        break;
      }
      assert out + ([d.value.id] + Walk(ds, d.value.parent, WALK_LIMIT - guard))
          == out + [d.value.id] + Walk(ds, d.value.parent, WALK_LIMIT - guard);
      out := out + [d.value.id];
      cur := d.value.parent;
    }
  }

  /** Domain `x` is reached from `cur` after `n` parent links, all through declared domains. */
  ghost predicate ReachedIn(ds: seq<DomainDecl>, cur: Option<u64>, x: u64, n: nat)
    decreases n
  {
    && cur.Some?
    && Lookup(ds, cur.value).Some?
    && (if n == 0 then cur.value == x else ReachedIn(ds, Lookup(ds, cur.value).value.parent, x, n - 1))
  }

  ghost predicate Reached(ds: seq<DomainDecl>, id: u64, x: u64) {
    exists n: nat :: ReachedIn(ds, Some(id), x, n)
  }

  lemma {:induction false} WalkIsReached(ds: seq<DomainDecl>, cur: Option<u64>, fuel: nat, x: u64) returns (n: nat)
    requires x in Walk(ds, cur, fuel)
    ensures n < fuel && ReachedIn(ds, cur, x, n)
    decreases fuel
  {
    var d := Lookup(ds, cur.value).value;
    if x == d.id {
      n := 0;
    } else {
      n := WalkIsReached(ds, d.parent, fuel - 1, x);
      n := n + 1;
    }
  }

  ghost function Elements(out: seq<u64>): set<u64> {
    set x | x in out
  }

  lemma {:induction false} ElementsCount(out: seq<u64>)
    ensures |Elements(out)| <= |out|
    ensures (forall i, j :: 0 <= i < j < |out| ==> out[i] != out[j]) ==> |Elements(out)| == |out|
  {
    if out == [] {
      assert Elements(out) == {};
    } else {
      var n := |out| - 1;
      ElementsCount(out[..n]);
      assert Elements(out) == Elements(out[..n]) + {out[n]};
    }
  }

  /** Consecutive entries of a walk are child and parent, and a walk stops early only where
      there is no declared parent to go to. */
  lemma {:induction false} WalkFollowsParents(ds: seq<DomainDecl>, cur: Option<u64>, fuel: nat)
    ensures var out := Walk(ds, cur, fuel);
            && (forall k :: 0 <= k < |out| ==> Lookup(ds, out[k]).Some?)
            && (forall k :: 0 <= k < |out| - 1 ==> Lookup(ds, out[k]).value.parent == Some(out[k + 1]))
            && (0 < |out| ==> cur == Some(out[0]))
            && (0 < |out| < fuel ==>
                  var p := Lookup(ds, out[|out| - 1]).value.parent;
                  p.None? || Lookup(ds, p.value).None?)
    decreases fuel
  {
    if fuel != 0 && cur.Some? && Lookup(ds, cur.value).Some? {
      WalkFollowsParents(ds, Lookup(ds, cur.value).value.parent, fuel - 1);
    }
  }

  /** A repeated domain repeats everything after it. */
  lemma {:induction false} WalkRepeats(ds: seq<DomainDecl>, cur: Option<u64>, fuel: nat, i: nat, j: nat, d: nat)
    requires i < j && j + d < |Walk(ds, cur, fuel)|
    requires Walk(ds, cur, fuel)[i] == Walk(ds, cur, fuel)[j]
    ensures Walk(ds, cur, fuel)[i + d] == Walk(ds, cur, fuel)[j + d]
    decreases d
  {
    if d != 0 {
      WalkRepeats(ds, cur, fuel, i, j, d - 1);
      WalkFollowsParents(ds, cur, fuel);
      var out := Walk(ds, cur, fuel);
      assert Lookup(ds, out[i + d - 1]).value.parent == Some(out[i + d - 1 + 1]);
      assert Lookup(ds, out[j + d - 1]).value.parent == Some(out[j + d - 1 + 1]);
    }
  }

  /** A set of domains that parent links do not leave. */
  ghost predicate Closed(ds: seq<DomainDecl>, v: set<u64>) {
    forall x :: x in v && Lookup(ds, x).Some? ==> ParentStays(ds, v, Lookup(ds, x).value.parent)
  }

  ghost predicate ParentStays(ds: seq<DomainDecl>, v: set<u64>, p: Option<u64>) {
    p.Some? && Lookup(ds, p.value).Some? ==> p.value in v
  }

  /** A walk that meets a domain twice goes on inside what it has visited. */
  lemma RepeatStaysInside(ds: seq<DomainDecl>, cur: Option<u64>, fuel: nat, i: nat, j: nat)
    requires var out := Walk(ds, cur, fuel); i < j < |out| && out[i] == out[j]
    ensures var out := Walk(ds, cur, fuel);
            Lookup(ds, out[|out| - 1]).Some? ==> ParentStays(ds, Elements(out), Lookup(ds, out[|out| - 1]).value.parent)
  {
    var out := Walk(ds, cur, fuel);
    var last := |out| - 1;
    WalkFollowsParents(ds, cur, fuel);
    WalkRepeats(ds, cur, fuel, i, j, last - j);
    assert Lookup(ds, out[i + (last - j)]).value.parent == Some(out[i + (last - j) + 1]);
  }

  /** A walk either covers a closed set or spent all its fuel on different domains. */
  lemma WalkClosesOrIsFresh(ds: seq<DomainDecl>, cur: Option<u64>, fuel: nat)
    ensures var v := Elements(Walk(ds, cur, fuel)); Closed(ds, v) || |v| == fuel
  {
    var out := Walk(ds, cur, fuel);
    var v := Elements(out);
    var last := |out| - 1;
    WalkFollowsParents(ds, cur, fuel);
    forall k | 0 <= k < last ensures ParentStays(ds, v, Lookup(ds, out[k]).value.parent) {
      assert out[k + 1] in v;
    }
    if !Closed(ds, v) {
      var x :| x in v && Lookup(ds, x).Some? && !ParentStays(ds, v, Lookup(ds, x).value.parent);
      assert out[last] == x;
      forall i, j | 0 <= i < j < |out| ensures out[i] != out[j] {
        if out[i] == out[j] {
          RepeatStaysInside(ds, cur, fuel, i, j);
        }
      }
      ElementsCount(out);
    }
  }

  lemma {:induction false} ClosedCoversReached(ds: seq<DomainDecl>, v: set<u64>, cur: Option<u64>, x: u64, n: nat)
    requires Closed(ds, v) && ReachedIn(ds, cur, x, n) && cur.value in v
    ensures x in v
    decreases n
  {
    if n != 0 {
      ClosedCoversReached(ds, v, Lookup(ds, cur.value).value.parent, x, n - 1);
    }
  }

  lemma {:induction false} ReachedAreDeclared(ds: seq<DomainDecl>, cur: Option<u64>, x: u64, n: nat)
    requires ReachedIn(ds, cur, x, n)
    ensures x in Declared(ds)
    decreases n
  {
    if n != 0 {
      ReachedAreDeclared(ds, Lookup(ds, cur.value).value.parent, x, n - 1);
    }
  }

  /** The declared domains at or above `id`. */
  ghost function Closure(ds: seq<DomainDecl>, id: u64): set<u64> {
    set x | x in Declared(ds) && Reached(ds, id, x)
  }

  lemma AncestorsAreReached(ds: seq<DomainDecl>, id: u64)
    ensures Elements(AncestorsOf(ds, id)) <= Closure(ds, id)
  {
    forall x | x in AncestorsOf(ds, id) ensures x in Closure(ds, id) {
      var n := WalkIsReached(ds, Some(id), WALK_LIMIT, x);
      ReachedAreDeclared(ds, Some(id), x, n);
    }
  }

  /** The 64-step walk finds exactly the domains above `id`, cyclic or not, if and only if
      there are at most 64 of them. */
  lemma AncestorsExactIff(ds: seq<DomainDecl>, id: u64)
    ensures Elements(AncestorsOf(ds, id)) == Closure(ds, id) <==> |Closure(ds, id)| <= WALK_LIMIT
  {
    var v := Elements(AncestorsOf(ds, id));
    var all := Closure(ds, id);
    AncestorsAreReached(ds, id);
    ElementsCount(AncestorsOf(ds, id));
    if |all| <= WALK_LIMIT {
      WalkClosesOrIsFresh(ds, Some(id), WALK_LIMIT);
      if Closed(ds, v) {
        forall x | x in all ensures x in v {
          var n: nat :| ReachedIn(ds, Some(id), x, n);
          ClosedCoversReached(ds, v, Some(id), x, n);
        }
      } else {
        SubsetOfSameSize(v, all);
      }
    }
  }

  lemma {:induction false} SubsetOfSameSize(a: set<u64>, b: set<u64>)
    requires a <= b && |b| <= |a|
    ensures a == b
  {
    if x :| x in b && x !in a {
      assert a <= b - {x};
      SubsetNoLarger(a, b - {x});
    }
  }

  lemma {:induction false} SubsetNoLarger(a: set<u64>, b: set<u64>)
    requires a <= b
    ensures |a| <= |b|
  {
    if x :| x in a {
      SubsetNoLarger(a - {x}, b - {x});
    }
  }

  /** A registry of at most 64 domains never outgrows the walk. */
  lemma SmallRegistryExact(ds: seq<DomainDecl>, id: u64)
    requires |ds| <= WALK_LIMIT
    ensures Elements(AncestorsOf(ds, id)) == Closure(ds, id)
  {
    DeclaredCount(ds);
    SubsetNoLarger(Closure(ds, id), Declared(ds));
    AncestorsExactIff(ds, id);
  }

  lemma {:induction false} DeclaredCount(ds: seq<DomainDecl>)
    ensures |Declared(ds)| <= |ds|
  {
    if ds == [] {
      assert Declared(ds) == {};
    } else {
      var n := |ds| - 1;
      DeclaredCount(ds[..n]);
      assert Declared(ds) == Declared(ds[..n]) + {ds[n].id};
    }
  }

  // ----- shared risk -----------------------------------------------------------------

  /** The walked closure of the known memberships of `t`, or of nothing for the else-branch
      of a self-comparison. */
  function ClosureList(r: Registry, ms: seq<Membership>, t: u64): seq<u64> {
    if ms == [] then []
    else if ms[0].target == t && ms[0].known then AncestorsOf(r.domains, ms[0].domain) + ClosureList(r, ms[1..], t)
    else ClosureList(r, ms[1..], t)
  }

  predicate AnyUnknown(ms: seq<Membership>, t: u64) {
    exists m :: m in ms && m.target == t && !m.known
  }

  predicate Meet(a: seq<u64>, b: seq<u64>) {
    exists d :: d in a && d in b
  }

  /** Whether two targets share a domain; unknown when only an undeclared membership could
      tell. The source's second branch is an else-branch, so a target compared with itself
      collects nothing on that side. */
  function Overlaps(r: Registry, a: u64, b: u64): Option<bool> {
    var right := if a == b then [] else ClosureList(r, r.memberships, b);
    if Meet(ClosureList(r, r.memberships, a), right) then Some(true)
    else if AnyUnknown(r.memberships, a) || AnyUnknown(r.memberships, b) then None
    else Some(false)
  }

  method ComputeMeet(a: seq<u64>, b: seq<u64>) returns (r: bool)
    ensures r == Meet(a, b)
  {
    for i := 0 to |a|
      invariant forall k :: 0 <= k < i ==> a[k] !in b
    {
      if a[i] in b {
        return true;
      }
    }
    return false;
  }

  /** What one membership adds to the closure of `t`. */
  function Adds(r: Registry, m: Membership, t: u64): seq<u64> {
    if m.target == t && m.known then AncestorsOf(r.domains, m.domain) else []
  }

  lemma CollectOne(r: Registry, ms: seq<Membership>, t: u64, i: nat, sofar: seq<u64>)
    requires i < |ms| && sofar + ClosureList(r, ms[i..], t) == ClosureList(r, ms, t)
    ensures (sofar + Adds(r, ms[i], t)) + ClosureList(r, ms[i + 1..], t) == ClosureList(r, ms, t)
  {
    hide AncestorsOf;
    assert ms[i..][1..] == ms[i + 1..];
    assert sofar + (Adds(r, ms[i], t) + ClosureList(r, ms[i + 1..], t)) ==
           (sofar + Adds(r, ms[i], t)) + ClosureList(r, ms[i + 1..], t);
  }

  lemma CollectEnds(r: Registry, ms: seq<Membership>, t: u64, sofar: seq<u64>)
    requires sofar + ClosureList(r, ms[|ms|..], t) == ClosureList(r, ms, t)
    ensures sofar == ClosureList(r, ms, t)
  {
  }

  lemma UnknownOne(ms: seq<Membership>, t: u64, i: nat)
    requires i < |ms|
    ensures AnyUnknown(ms[..i + 1], t) <==> AnyUnknown(ms[..i], t) || (ms[i].target == t && !ms[i].known)
  {
    assert ms[..i + 1] == ms[..i] + [ms[i]];
  }

  lemma UnknownEnds(ms: seq<Membership>, t: u64)
    ensures !AnyUnknown(ms[..0], t) && (AnyUnknown(ms[..|ms|], t) <==> AnyUnknown(ms, t))
  {
    assert ms[..|ms|] == ms;
  }

  method ComputeOverlaps(r: Registry, a: u64, b: u64) returns (o: Option<bool>)
    ensures o == Overlaps(r, a, b)
  {
    hide AncestorsOf, Meet, ClosureList, AnyUnknown;
    var closureA: seq<u64>, closureB: seq<u64> := [], [];
    var unknownA, unknownB := false, false;
    var ms := r.memberships;
    assert ms[0..] == ms;
    UnknownEnds(ms, a);
    UnknownEnds(ms, b);
    for i := 0 to |ms|
      invariant closureA + ClosureList(r, ms[i..], a) == ClosureList(r, ms, a)
      invariant if a == b then closureB == [] else closureB + ClosureList(r, ms[i..], b) == ClosureList(r, ms, b)
      invariant unknownA <==> AnyUnknown(ms[..i], a)
      invariant unknownB <==> a != b && AnyUnknown(ms[..i], b)
    {
      CollectOne(r, ms, a, i, closureA);
      if a != b {
        CollectOne(r, ms, b, i, closureB);
      }
      UnknownOne(ms, a, i);
      UnknownOne(ms, b, i);
      assert closureA + [] == closureA && closureB + [] == closureB;
      if ms[i].target == a {
        if !ms[i].known {
          unknownA := true;
        } else {
          var anc := ComputeAncestors(r.domains, ms[i].domain);
          closureA := closureA + anc;
        }
      } else if ms[i].target == b {
        if !ms[i].known {
          unknownB := true;
        } else {
          var anc := ComputeAncestors(r.domains, ms[i].domain);
          closureB := closureB + anc;
        }
      }
    }
    CollectEnds(r, ms, a, closureA);
    if a != b {
      CollectEnds(r, ms, b, closureB);
    }
    var shared := ComputeMeet(closureA, closureB);
    if shared {
      return Some(true);
    }
    if unknownA || unknownB {
      return None;
    }
    return Some(false);
  }

  /** Domain `d` is at or above a domain that `t` is known to belong to. */
  ghost predicate Inside(r: Registry, t: u64, d: u64) {
    exists m :: m in r.memberships && m.target == t && m.known && d in Closure(r.domains, m.domain)
  }

  ghost predicate WithinWalk(r: Registry) {
    forall m :: m in r.memberships ==> |Closure(r.domains, m.domain)| <= WALK_LIMIT
  }

  lemma {:induction false} ClosureListExact(r: Registry, ms: seq<Membership>, t: u64, d: u64)
    requires forall m :: m in ms ==> |Closure(r.domains, m.domain)| <= WALK_LIMIT
    ensures d in ClosureList(r, ms, t) <==>
            exists m :: m in ms && m.target == t && m.known && d in Closure(r.domains, m.domain)
  {
    if ms != [] {
      ClosureListExact(r, ms[1..], t, d);
      AncestorsExactIff(r.domains, ms[0].domain);
      assert d in AncestorsOf(r.domains, ms[0].domain) <==> d in Elements(AncestorsOf(r.domains, ms[0].domain));
      assert forall m :: m in ms <==> m == ms[0] || m in ms[1..];
    }
  }

  /** For distinct targets `overlaps` is true exactly when some domain contains both, unknown
      exactly when none does but a membership is unknown, and it does not depend on the order. */
  lemma OverlapsExact(r: Registry, a: u64, b: u64)
    requires a != b && WithinWalk(r)
    ensures Overlaps(r, a, b) == Some(true) <==> exists d :: Inside(r, a, d) && Inside(r, b, d)
    ensures Overlaps(r, a, b) == None <==>
            !(exists d :: Inside(r, a, d) && Inside(r, b, d))
              && (AnyUnknown(r.memberships, a) || AnyUnknown(r.memberships, b))
    ensures Overlaps(r, a, b) == Overlaps(r, b, a)
  {
    hide ClosureList, Closure;
    forall d
      ensures d in ClosureList(r, r.memberships, a) <==> Inside(r, a, d)
      ensures d in ClosureList(r, r.memberships, b) <==> Inside(r, b, d)
    {
      ClosureListExact(r, r.memberships, a, d);
      ClosureListExact(r, r.memberships, b, d);
    }
  }

  /** A target never overlaps itself, whatever domains it belongs to. */
  lemma SelfComparisonNeverOverlaps(r: Registry, a: u64)
    ensures Overlaps(r, a, a) == if AnyUnknown(r.memberships, a) then None else Some(false)
  {
  }

  // ----- membership questions --------------------------------------------------------

  predicate UnknownAt(ms: seq<Membership>, t: u64, d: u64) {
    exists m :: m in ms && m.target == t && m.domain == d && !m.known
  }

  predicate MemberAt(ms: seq<Membership>, t: u64, d: u64) {
    exists m :: m in ms && m.target == t && m.domain == d && m.known
  }

  /** Direct membership only: a domain above the declared one does not count. */
  function InDomain(r: Registry, t: u64, d: u64): Option<bool> {
    if UnknownAt(r.memberships, t, d) then None else Some(MemberAt(r.memberships, t, d))
  }

  predicate SameQuestion(x: Membership, m: Membership) {
    x.target == m.target && x.domain == m.domain
  }

  lemma {:induction false} SetMemberMembers(ms: seq<Membership>, m: Membership, x: Membership)
    requires DistinctMemberships(ms)
    ensures x in SetMember(ms, m) <==> x == m || (x in ms && !SameQuestion(x, m))
  {
    if ms != [] {
      assert forall y :: y in ms <==> y == ms[0] || y in ms[1..];
      if SameQuestion(ms[0], m) {
        assert forall k :: 0 <= k < |ms| - 1 ==> ms[1..][k] == ms[k + 1];
      } else {
        SetMemberMembers(ms[1..], m, x);
      }
    }
  }

  /** The last membership set for a target and a domain is what the question about them is answered
      with, and no other answer changes. */
  lemma MembershipAnswers(r: Registry, m: Membership, t: u64, d: u64)
    requires DistinctMemberships(r.memberships)
    ensures InDomain(r.(memberships := SetMember(r.memberships, m)), t, d) ==
            if t == m.target && d == m.domain then (if m.known then Some(true) else None) else InDomain(r, t, d)
  {
    forall x ensures x in SetMember(r.memberships, m) <==> x == m || (x in r.memberships && !SameQuestion(x, m)) {
      SetMemberMembers(r.memberships, m, x);
    }
  }

  /** Domain `d` is reached through the parent of the declared domain `id`. */
  ghost predicate Above(ds: seq<DomainDecl>, id: u64, d: u64) {
    var x := Lookup(ds, id);
    x.Some? && x.value.parent.Some? && Reached(ds, x.value.parent.value, d)
  }

  /** The target is declared in a domain that lies under `d`. */
  ghost predicate MemberUnder(r: Registry, t: u64, d: u64) {
    exists m :: m in r.memberships && m.target == t && m.known && Above(r.domains, m.domain, d)
  }

  lemma ReachedIff(ds: seq<DomainDecl>, id: u64, d: u64)
    ensures Reached(ds, id, d) <==> (id == d && Lookup(ds, d).Some?) || Above(ds, id, d)
  {
    if n: nat :| ReachedIn(ds, Some(id), d, n) {
      if n > 0 {
        var p := Lookup(ds, id).value.parent;
        assert ReachedIn(ds, p, d, n - 1);
        assert p == Some(p.value);
      }
    }
    if id == d && Lookup(ds, d).Some? {
      assert ReachedIn(ds, Some(id), d, 0);
    }
    if Above(ds, id, d) {
      var p := Lookup(ds, id).value.parent;
      var n: nat :| ReachedIn(ds, Some(p.value), d, n);
      assert p == Some(p.value);
      assert ReachedIn(ds, Some(id), d, n + 1);
    }
  }

  lemma ReachedIsDeclared(ds: seq<DomainDecl>, id: u64, d: u64)
    requires Reached(ds, id, d)
    ensures d in Declared(ds) && Lookup(ds, d).Some?
  {
    var n: nat :| ReachedIn(ds, Some(id), d, n);
    ReachedAreDeclared(ds, Some(id), d, n);
  }

  lemma ClosureIff(ds: seq<DomainDecl>, id: u64, d: u64)
    ensures d in Closure(ds, id) <==> Reached(ds, id, d)
  {
    if Reached(ds, id, d) {
      ReachedIsDeclared(ds, id, d);
    }
  }

  /** In or under a domain, by the declarations: a member of it, or of a domain under it. */
  lemma InsideIff(r: Registry, t: u64, d: u64)
    ensures Inside(r, t, d) <==> (MemberAt(r.memberships, t, d) && Lookup(r.domains, d).Some?) || MemberUnder(r, t, d)
    ensures MemberUnder(r, t, d) ==> Lookup(r.domains, d).Some?
  {
    hide Closure, Reached;
    forall m | m in r.memberships
      ensures d in Closure(r.domains, m.domain) <==>
              (m.domain == d && Lookup(r.domains, d).Some?) || Above(r.domains, m.domain, d)
      ensures Above(r.domains, m.domain, d) ==> Lookup(r.domains, d).Some?
    {
      ClosureIff(r.domains, m.domain, d);
      ReachedIff(r.domains, m.domain, d);
      if Above(r.domains, m.domain, d) {
        ReachedIsDeclared(r.domains, Lookup(r.domains, m.domain).value.parent.value, d);
      }
    }
  }

  /** The header says that `in_domain` tells whether a target is in or under a domain. Its answer is that
      one if and only if the membership at the domain is not marked unknown, a member of the domain
      finds it declared, and a target that belongs to a domain under it is a member of it as well. */
  lemma InDomainExactIff(r: Registry, t: u64, d: u64)
    ensures InDomain(r, t, d) == Some(Inside(r, t, d)) <==>
            && !UnknownAt(r.memberships, t, d)
            && (MemberAt(r.memberships, t, d) ==> Lookup(r.domains, d).Some?)
            && (MemberUnder(r, t, d) ==> MemberAt(r.memberships, t, d))
  {
    hide Inside, MemberUnder;
    InsideIff(r, t, d);
  }

  /** It misses a target that is under the domain exactly when the target is declared under it and
      nothing is declared at the domain itself. */
  lemma InDomainMissesIff(r: Registry, t: u64, d: u64)
    ensures InDomain(r, t, d) == Some(false) && Inside(r, t, d) <==>
            && MemberUnder(r, t, d)
            && !UnknownAt(r.memberships, t, d) && !MemberAt(r.memberships, t, d)
  {
    hide Inside, MemberUnder;
    InsideIff(r, t, d);
  }

  /** A rack in a site, and a target in the rack. */
  function RackInSite(site: u64, rack: u64, t: u64): Registry {
    Registry([DomainDecl(site, 1, 0, [], None, 0), DomainDecl(rack, 1, 0, [], Some(site), 0)],
             [Membership(t, rack, true)])
  }

  lemma RackIsMissed(site: u64, rack: u64, t: u64)
    requires site != rack
    ensures var r := RackInSite(site, rack, t);
            InDomain(r, t, site) == Some(false) && Inside(r, t, site) && MemberUnder(r, t, site)
  {
    var r := RackInSite(site, rack, t);
    assert r.domains[1..][0] == r.domains[1];
    assert Lookup(r.domains, rack) == Some(r.domains[1]);
    assert ReachedIn(r.domains, Some(site), site, 0);
    assert Above(r.domains, rack, site);
    assert r.memberships[0] in r.memberships;
    hide Inside, Above;
    InDomainMissesIff(r, t, site);
  }
}
