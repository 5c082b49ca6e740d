/** The ranking score of a candidate, over the reals. The value of a double is a parameter; rounding
    inside double arithmetic is not modelled. */
module Ranking {
  import opened Types
  import opened Domains
  import opened Selection
  import opened Fabric

  type Amount = DoubleBits -> real

  // ----- the score -------------------------------------------------------------------

  function Least(x: real, y: real): real {
    if x < y then x else y
  }

  function Most(x: real, y: real): real {
    if x > y then x else y
  }

  /** One at zero, falling to zero at the scale. */
  function Falling(n: u64, scale: real): real
    requires scale > 0.0
  {
    if n > 0 then 1.0 - Least(1.0, n as real / scale) else 1.0
  }

  function ClassNumber(c: ContinuityClass): nat {
    match c
    case StatelessRestart => 0
    case ReplaySafeRequests => 1
    case CheckpointRestore => 2
    case SessionStateRebind => 3
    case SessionRestartRequired => 4
    case ManualRecoveryRequired => 5
    case UnknownContinuity => 6
  }

  function ClassOf(c: Candidate): nat {
    if c.continuity.Some? then ClassNumber(c.continuity.value) else 0
  }

  function Spare(have: real, need: real): real {
    if have > need then Least(1.0, (have - need) / Most(1.0, need)) else 0.0
  }

  /** The spare capacity of the first resource of the required class. */
  function Abundance(rs: seq<Resource>, req: ResourceRequirement, amount: Amount): real {
    if rs == [] then 0.0
    else if rs[0].resourceClass == req.resourceClass then Spare(amount(rs[0].amount), amount(req.amount))
    else Abundance(rs[1..], req, amount)
  }

  function Total(rs: seq<Resource>, reqs: seq<ResourceRequirement>, amount: Amount): real {
    if reqs == [] then 0.0 else Abundance(rs, reqs[0], amount) + Total(rs, reqs[1..], amount)
  }

  function Capacity(rs: seq<Resource>, reqs: seq<ResourceRequirement>, amount: Amount): real {
    if reqs == [] then 0.0 else Total(rs, reqs, amount) / |reqs| as real
  }

  function Overlap(rs: seq<Resource>): real {
    if rs == [] then 0.5 else 1.0
  }

  const PATH_SCALE := 30000.0
  const LOSS_SCALE := 1000.0

  function Score(c: Candidate, svc: ServiceDefinition, amount: Amount): real {
    (if c.facts.ready then 0.12 else 0.0)
    + 0.07 * Falling(c.costs.criticalPathMs, PATH_SCALE)
    + 0.20 * (ClassOf(c) as real / 6.0)
    + 0.10 * Falling(c.costs.stateLoss, LOSS_SCALE)
    + 0.08 * Capacity(c.resources, svc.resources, amount)
    + 0.06 * Overlap(c.resources)
    + 0.25
    + 0.03 * 0.5
  }

  function Rounded(x: real): int {
    (x + 0.5).Floor
  }

  function Millionths(c: Candidate, svc: ServiceDefinition, amount: Amount): int {
    Rounded(Score(c, svc, amount) * 1000000.0)
  }

  function RankOf(c: Candidate, svc: ServiceDefinition, amount: Amount): u64 {
    RankFits(c, svc, amount);
    Millionths(c, svc, amount) * 2 + c.costs.criticalPathMs % 1000
  }

  // ----- bounds ----------------------------------------------------------------------

  lemma SpareIsFraction(have: real, need: real)
    ensures 0.0 <= Spare(have, need) <= 1.0
  {
    if have > need {
      var d := Most(1.0, need);
      assert (have - need) / d >= 0.0;
    }
  }

  lemma {:induction false} AbundanceIsFraction(rs: seq<Resource>, req: ResourceRequirement, amount: Amount)
    ensures 0.0 <= Abundance(rs, req, amount) <= 1.0
  {
    if rs != [] {
      SpareIsFraction(amount(rs[0].amount), amount(req.amount));
      AbundanceIsFraction(rs[1..], req, amount);
    }
  }

  lemma {:induction false} TotalIsBounded(rs: seq<Resource>, reqs: seq<ResourceRequirement>, amount: Amount)
    ensures 0.0 <= Total(rs, reqs, amount) <= |reqs| as real
  {
    if reqs != [] {
      AbundanceIsFraction(rs, reqs[0], amount);
      TotalIsBounded(rs, reqs[1..], amount);
    }
  }

  lemma CapacityIsFraction(rs: seq<Resource>, reqs: seq<ResourceRequirement>, amount: Amount)
    ensures 0.0 <= Capacity(rs, reqs, amount) <= 1.0
  {
    TotalIsBounded(rs, reqs, amount);
    if reqs != [] {
      Ratio(Total(rs, reqs, amount), |reqs| as real);
    }
  }

  lemma Ratio(x: real, n: real)
    requires 0.0 <= x <= n && n > 0.0
    ensures 0.0 <= x / n <= 1.0
  {
    assert x / n * n == x;
  }

  lemma FallingIsFraction(n: u64, scale: real)
    requires scale > 0.0
    ensures 0.0 <= Falling(n, scale) <= 1.0
  {
    assert n as real / scale >= 0.0;
  }

  /** Whatever the amounts are, the score lies between 0.295 and 0.895. */
  lemma ScoreIsBounded(c: Candidate, svc: ServiceDefinition, amount: Amount)
    ensures 0.295 <= Score(c, svc, amount) <= 0.895
  {
    hide Falling, Capacity;
    FallingIsFraction(c.costs.criticalPathMs, PATH_SCALE);
    FallingIsFraction(c.costs.stateLoss, LOSS_SCALE);
    CapacityIsFraction(c.resources, svc.resources, amount);
  }

  /** So neither the conversion nor the doubling leaves the 64-bit range. */
  lemma RankFits(c: Candidate, svc: ServiceDefinition, amount: Amount)
    ensures 295000 <= Millionths(c, svc, amount) <= 895000
    ensures 0 <= Millionths(c, svc, amount) * 2 + c.costs.criticalPathMs % 1000 < U64_LIMIT
  {
    hide Score;
    ScoreIsBounded(c, svc, amount);
  }

  // ----- the loops -------------------------------------------------------------------

  method ComputeCapacity(rs: seq<Resource>, reqs: seq<ResourceRequirement>, amount: Amount) returns (cap: real)
    ensures cap == Capacity(rs, reqs, amount)
  {
    cap := 0.0;
    var have := false;
    for i := 0 to |reqs|
      invariant cap + Total(rs, reqs[i..], amount) == Total(rs, reqs, amount)
      invariant if have then i > 0 else cap == 0.0
    {
      ghost var before := cap;
      var k := 0;
      while k < |rs|
        invariant k <= |rs| && cap == before
        invariant Abundance(rs[k..], reqs[i], amount) == Abundance(rs, reqs[i], amount)
      {
        if rs[k].resourceClass == reqs[i].resourceClass {
          cap := cap + Spare(amount(rs[k].amount), amount(reqs[i].amount));
          have := true;
          break;
        }
        assert rs[k..][1..] == rs[k + 1..];
        k := k + 1;
      }
      assert cap == before + Abundance(rs, reqs[i], amount);
      assert reqs[i..][1..] == reqs[i + 1..];
    }
    cap := if have then cap / |reqs| as real else 0.0;
  }

  // ----- what the rank prefers -------------------------------------------------------

  /** At least as good in every factor. */
  predicate AsGood(a: Candidate, b: Candidate, svc: ServiceDefinition, amount: Amount) {
    && (b.facts.ready ==> a.facts.ready)
    && a.costs.criticalPathMs <= b.costs.criticalPathMs
    && ClassOf(a) >= ClassOf(b)
    && a.costs.stateLoss <= b.costs.stateLoss
    && Capacity(a.resources, svc.resources, amount) >= Capacity(b.resources, svc.resources, amount)
    && (a.resources == [] ==> b.resources == [])
  }

  lemma FallingFalls(m: u64, n: u64, scale: real)
    requires scale > 0.0 && m <= n
    ensures Falling(m, scale) >= Falling(n, scale)
  {
    assert m as real / scale <= n as real / scale;
  }

  /** A candidate that is at least as good in every factor never has the smaller score; its rank is
      smaller exactly when the remainder of its critical path costs it more than its score gains. */
  lemma DominanceIff(a: Candidate, b: Candidate, svc: ServiceDefinition, amount: Amount)
    requires AsGood(a, b, svc, amount)
    ensures Score(a, svc, amount) >= Score(b, svc, amount)
    ensures Millionths(a, svc, amount) >= Millionths(b, svc, amount)
    ensures RankOf(a, svc, amount) < RankOf(b, svc, amount) <==>
            2 * (Millionths(a, svc, amount) - Millionths(b, svc, amount)) <
            b.costs.criticalPathMs % 1000 - a.costs.criticalPathMs % 1000
  {
    ScoreGrows(a, b, svc, amount);
  }

  lemma ScoreGrows(a: Candidate, b: Candidate, svc: ServiceDefinition, amount: Amount)
    requires AsGood(a, b, svc, amount)
    ensures Score(a, svc, amount) >= Score(b, svc, amount)
  {
    hide Falling, Capacity;
    FallingFalls(a.costs.criticalPathMs, b.costs.criticalPathMs, PATH_SCALE);
    FallingFalls(a.costs.stateLoss, b.costs.stateLoss, LOSS_SCALE);
  }

  /** Ties of the score go to the larger remainder of the critical path: between two paths of the same
      thousand, to the longer one. */
  lemma TieGoesToLongerPath(a: Candidate, b: Candidate, svc: ServiceDefinition, amount: Amount)
    requires Millionths(a, svc, amount) == Millionths(b, svc, amount)
    ensures RankOf(a, svc, amount) > RankOf(b, svc, amount) <==>
            a.costs.criticalPathMs % 1000 > b.costs.criticalPathMs % 1000
    ensures a.costs.criticalPathMs / 1000 == b.costs.criticalPathMs / 1000 ==>
              (RankOf(a, svc, amount) > RankOf(b, svc, amount) <==> a.costs.criticalPathMs > b.costs.criticalPathMs)
  {
    hide Millionths;
  }

  /** The same candidate with another critical path. */
  function WithPath(c: Candidate, path: u64): Candidate {
    c.(costs := c.costs.(criticalPathMs := path))
  }

  lemma PathScore(c: Candidate, p: u64, q: u64, svc: ServiceDefinition, amount: Amount)
    requires p <= q <= 30000
    ensures Score(WithPath(c, p), svc, amount) * 1000000.0 - Score(WithPath(c, q), svc, amount) * 1000000.0 ==
            (q - p) as real * 7.0 / 3.0
  {
    hide Capacity;
    assert Falling(p, PATH_SCALE) == 1.0 - p as real / PATH_SCALE;
    assert Falling(q, PATH_SCALE) == 1.0 - q as real / PATH_SCALE;
  }

  lemma RoundedApart(x: real, y: real, k: nat)
    requires x - y >= k as real
    ensures Rounded(x) - Rounded(y) >= k
  {
  }

  /** Beyond the scale the score no longer sees the path. */
  lemma PathBeyond(c: Candidate, q: u64, svc: ServiceDefinition, amount: Amount)
    requires q >= 30000
    ensures Score(WithPath(c, q), svc, amount) == Score(WithPath(c, 30000), svc, amount)
  {
    hide Capacity;
    assert q as real / PATH_SCALE >= 1.0;
  }

  /** Up to the scale each millisecond is worth more than two millionths. */
  lemma PathGain(c: Candidate, p: u64, q: u64, svc: ServiceDefinition, amount: Amount)
    requires p <= q <= 30000
    ensures 3 * (Millionths(WithPath(c, p), svc, amount) - Millionths(WithPath(c, q), svc, amount)) >= 7 * (q - p) - 2
  {
    hide Score;
    PathScore(c, p, q, svc, amount);
    var k := 7 * (q - p) / 3;
    assert (q - p) as real * 7.0 / 3.0 >= k as real;
    RoundedApart(Score(WithPath(c, p), svc, amount) * 1000000.0, Score(WithPath(c, q), svc, amount) * 1000000.0, k);
  }

  /** With all else equal the shorter critical path has the larger rank if both are within the scale of
      thirty seconds, or the shorter is by 215 milliseconds; if both are beyond it, the larger remainder
      wins. */
  lemma ShorterPathWinsIff(c: Candidate, p: u64, q: u64, svc: ServiceDefinition, amount: Amount)
    requires p < q
    ensures q <= 30000 || p <= 29785 ==>
              RankOf(WithPath(c, p), svc, amount) > RankOf(WithPath(c, q), svc, amount)
    ensures p >= 30000 ==>
              (RankOf(WithPath(c, p), svc, amount) > RankOf(WithPath(c, q), svc, amount) <==> p % 1000 > q % 1000)
  {
    hide Score, Rounded;
    var q' := if q <= 30000 then q else 30000;
    if q > 30000 {
      PathBeyond(c, q, svc, amount);
    }
    if p >= 30000 {
      PathBeyond(c, p, svc, amount);
    } else {
      PathGain(c, p, q', svc, amount);
      assert q % 1000 - p % 1000 <= q - p;
    }
  }

  // ----- in a selection --------------------------------------------------------------

  /** Judging a candidate leaves its rank alone. */
  lemma JudgedRank(c: Candidate, svc: ServiceDefinition, dom: Registry, ctx: Context, amount: Amount)
    ensures RankOf(Judged(c, svc, dom, ctx), svc, amount) == RankOf(c, svc, amount)
  {
    hide HardFault, Falling, Capacity;
  }

  /** Of two targets of a snapshot that are ready, with equal resources and continuity class, the one
      whose state is available outranks the other. */
  lemma HeldStateOutranks(t: TargetRecord, u: TargetRecord, svc: ServiceDefinition, amount: Amount)
    requires t.facts.Some? && u.facts.Some? && t.facts.value.ready && u.facts.value.ready
    requires t.hasState && t.state.available && !(u.hasState && u.state.available)
    requires t.resources == u.resources
    requires InferContinuity(t.state, t.facts.value) == InferContinuity(u.state, u.facts.value)
    ensures RankOf(CandidateOf(t, t.facts.value), svc, amount) > RankOf(CandidateOf(u, u.facts.value), svc, amount)
  {
    hide Capacity, InferContinuity, Rounded;
    var a, b := CandidateOf(t, t.facts.value), CandidateOf(u, u.facts.value);
    var x, y := Score(a, svc, amount) * 1000000.0, Score(b, svc, amount) * 1000000.0;
    assert x - y >= 1.0;
    RoundedApart(x, y, 1);
  }

  /** What is selected under this rank: nobody eligible of the same preference has the larger rank. */
  lemma SelectedHasTopRank(xs: seq<Candidate>, svc: ServiceDefinition, dom: Registry, ctx: Context, amount: Amount,
                           x: Candidate)
    requires x in xs && Eligible(x, svc, dom, ctx)
    ensures var r := Select(xs, svc, dom, ctx, c => RankOf(c, svc, amount));
            && r.selected.Some?
            && ((ctx.preferred == Some(r.selected.value.facts.target)) == (ctx.preferred == Some(x.facts.target)) ==>
                 RankOf(r.selected.value, svc, amount) >= RankOf(x, svc, amount))
  {
    hide HardFault, Select, RankOf;
    SelectedIsBest(xs, svc, dom, ctx, c => RankOf(c, svc, amount));
    JudgedRank(x, svc, dom, ctx, amount);
  }
}
