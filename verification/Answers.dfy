/** Nothing is committed without being answered: in every run of interleaved attempts, each commit comes
    after the positive replies to its own fence, activation, route and verification, in that order. */
module Answers {
  import opened Types
  import opened Routing
  import opened Fabric
  import opened Operations
  import opened Durable
  import opened Cutover
  import opened Vetting

  /** How many of the three replies before the verification an attempt at `pc` has had. */
  function Stage(pc: Pc): nat {
    match pc
    case ToMark(m) => MilestoneStage(m)
    case ToSave(m) => MilestoneStage(m)
    case ToFence => 0
    case ToActivate => 1
    case ToRoute => 2
    case ToInstall => 2
    case ToVerify => 3
    case _ => 0
  }

  function MilestoneStage(m: Milestone): nat {
    match m
    case IntentOnly => 0
    case OldAdmissionFenced => 1
    case ActivationAcknowledged => 2
    case _ => 3
  }

  // The replies, each at its place in the run `es` from `m`, while attempt `t` was waiting for it.

  ghost predicate Fenced(m: Machine, es: seq<Event>, t: nat, a: Attempt, i: nat) {
    && i < |es| && es[i].FenceReply? && es[i].tid == t && At(Run(m, es[..i]), t, ToFence)
    && (a.source.Some? ==> es[i].applied && !es[i].unproven)
  }

  ghost predicate Activated(m: Machine, es: seq<Event>, t: nat, i: nat) {
    i < |es| && es[i] == ActivateReply(t, true) && At(Run(m, es[..i]), t, ToActivate)
  }

  ghost predicate Routed(m: Machine, es: seq<Event>, t: nat, i: nat) {
    i < |es| && es[i] == RouteReply(t, true) && At(Run(m, es[..i]), t, ToInstall)
  }

  ghost predicate Verified(m: Machine, es: seq<Event>, t: nat, i: nat) {
    i < |es| && es[i].VerifyReply? && es[i].tid == t && es[i].verified && At(Run(m, es[..i]), t, ToVerify)
  }

  ghost predicate FenceHeard(m: Machine, es: seq<Event>, t: nat, a: Attempt) {
    exists i: nat :: Fenced(m, es, t, a, i)
  }

  ghost predicate ActivationHeard(m: Machine, es: seq<Event>, t: nat, a: Attempt) {
    exists i: nat, j: nat :: i < j && Fenced(m, es, t, a, i) && Activated(m, es, t, j)
  }

  ghost predicate RouteHeard(m: Machine, es: seq<Event>, t: nat, a: Attempt) {
    exists i: nat, j: nat, k: nat ::
      i < j < k && Fenced(m, es, t, a, i) && Activated(m, es, t, j) && Routed(m, es, t, k)
  }

  /** All four replies, in order. */
  ghost predicate AllHeard(m: Machine, es: seq<Event>, t: nat, a: Attempt) {
    exists i: nat, j: nat, k: nat, l: nat :: i < j < k < l &&
      Fenced(m, es, t, a, i) && Activated(m, es, t, j) && Routed(m, es, t, k) && Verified(m, es, t, l)
  }

  ghost predicate Heard(m: Machine, es: seq<Event>, t: nat, a: Attempt, stage: nat) {
    && (stage >= 1 ==> FenceHeard(m, es, t, a))
    && (stage >= 2 ==> ActivationHeard(m, es, t, a))
    && (stage >= 3 ==> RouteHeard(m, es, t, a))
  }

  /** What is known of the attempts and commits of `n`, which the run has reached. */
  ghost predicate Answered(m: Machine, es: seq<Event>, n: Machine) {
    && (forall t :: t in n.procs ==> Heard(m, es, t, n.procs[t].attempt, Stage(n.procs[t].pc)))
    && (forall i :: 0 <= i < |n.log| ==> AllHeard(m, es, n.log[i].tid, n.log[i].attempt))
  }

  // ----- one more event --------------------------------------------------------------

  lemma StillThere(m: Machine, es: seq<Event>, e: Event, t: nat, a: Attempt)
    ensures forall i :: Fenced(m, es, t, a, i) ==> Fenced(m, es + [e], t, a, i)
    ensures forall i :: Activated(m, es, t, i) ==> Activated(m, es + [e], t, i)
    ensures forall i :: Routed(m, es, t, i) ==> Routed(m, es + [e], t, i)
    ensures forall i :: Verified(m, es, t, i) ==> Verified(m, es + [e], t, i)
  {
    hide Run, At;
    forall i: nat | i < |es| ensures (es + [e])[..i] == es[..i] && (es + [e])[i] == es[i] {
    }
  }

  lemma StillHeard(m: Machine, es: seq<Event>, e: Event, t: nat, a: Attempt)
    ensures forall stage :: Heard(m, es, t, a, stage) ==> Heard(m, es + [e], t, a, stage)
    ensures AllHeard(m, es, t, a) ==> AllHeard(m, es + [e], t, a)
  {
    hide Fenced, Activated, Routed, Verified;
    StillThere(m, es, e, t, a);
    if FenceHeard(m, es, t, a) {
      var i: nat :| Fenced(m, es, t, a, i);
      assert Fenced(m, es + [e], t, a, i);
    }
    if ActivationHeard(m, es, t, a) {
      var i: nat, j: nat :| i < j && Fenced(m, es, t, a, i) && Activated(m, es, t, j);
      assert Fenced(m, es + [e], t, a, i) && Activated(m, es + [e], t, j);
    }
    if RouteHeard(m, es, t, a) {
      var i: nat, j: nat, k: nat :|
        i < j < k && Fenced(m, es, t, a, i) && Activated(m, es, t, j) && Routed(m, es, t, k);
      assert Fenced(m, es + [e], t, a, i) && Activated(m, es + [e], t, j) && Routed(m, es + [e], t, k);
    }
    if AllHeard(m, es, t, a) {
      var i: nat, j: nat, k: nat, l: nat :| i < j < k < l &&
        Fenced(m, es, t, a, i) && Activated(m, es, t, j) && Routed(m, es, t, k) && Verified(m, es, t, l);
      assert Fenced(m, es + [e], t, a, i) && Activated(m, es + [e], t, j);
      assert Routed(m, es + [e], t, k) && Verified(m, es + [e], t, l);
    }
  }

  /** The reply that the event brings to attempt `t`, if the attempt is waiting for it. */
  predicate Advances(p: Machine, e: Event, t: nat, a: Attempt, stage: nat) {
    match stage
    case 1 => e.FenceReply? && e.tid == t && At(p, t, ToFence) && (a.source.Some? ==> e.applied && !e.unproven)
    case 2 => e == ActivateReply(t, true) && At(p, t, ToActivate)
    case 3 => e == RouteReply(t, true) && At(p, t, ToInstall)
    case _ => e.VerifyReply? && e.tid == t && e.verified && At(p, t, ToVerify)
  }

  lemma HeardNow(m: Machine, es: seq<Event>, e: Event, t: nat, a: Attempt, stage: nat)
    requires 1 <= stage <= 3 && Heard(m, es, t, a, stage - 1) && Advances(Run(m, es), e, t, a, stage)
    ensures Heard(m, es + [e], t, a, stage)
  {
    hide Run;
    var fs := es + [e];
    assert fs[..|es|] == es && fs[|es|] == e;
    StillHeard(m, es, e, t, a);
    StillThere(m, es, e, t, a);
    match stage {
      case 1 => assert Fenced(m, fs, t, a, |es|);
      case 2 =>
        var i: nat :| Fenced(m, es, t, a, i);
        assert Fenced(m, fs, t, a, i) && Activated(m, fs, t, |es|);
      case 3 =>
        var i: nat, j: nat :| i < j && Fenced(m, es, t, a, i) && Activated(m, es, t, j);
        assert Fenced(m, fs, t, a, i) && Activated(m, fs, t, j) && Routed(m, fs, t, |es|);
    }
  }

  lemma AllHeardNow(m: Machine, es: seq<Event>, e: Event, t: nat, a: Attempt)
    requires Heard(m, es, t, a, 3) && Advances(Run(m, es), e, t, a, 4)
    ensures AllHeard(m, es + [e], t, a)
  {
    hide Run;
    var fs := es + [e];
    assert fs[..|es|] == es && fs[|es|] == e;
    StillThere(m, es, e, t, a);
    var i: nat, j: nat, k: nat :| i < j < k && Fenced(m, es, t, a, i) && Activated(m, es, t, j) && Routed(m, es, t, k);
    assert Fenced(m, fs, t, a, i) && Activated(m, fs, t, j) && Routed(m, fs, t, k) && Verified(m, fs, t, |es|);
  }

  // ----- what a step can do to an attempt --------------------------------------------

  /** An attempt stays at its stage or falls back to none, unless the step brings the next reply. */
  predicate Moves(p: Machine, n: Machine, e: Event, t: nat) {
    t in n.procs &&
    var s := Stage(n.procs[t].pc);
    || s == 0
    || (t in p.procs && n.procs[t].attempt == p.procs[t].attempt
        && (s == Stage(p.procs[t].pc) ||
            (s == Stage(p.procs[t].pc) + 1 && Advances(p, e, t, p.procs[t].attempt, s))))
  }

  predicate Logs(p: Machine, n: Machine, e: Event) {
    || n.log == p.log
    || (&& e.VerifyReply? && e.tid in p.procs && Stage(p.procs[e.tid].pc) == 3
        && Advances(p, e, e.tid, p.procs[e.tid].attempt, 4)
        && |n.log| == |p.log| + 1 && n.log[..|p.log|] == p.log
        && n.log[|p.log|].tid == e.tid && n.log[|p.log|].attempt == p.procs[e.tid].attempt)
  }

  lemma SameMoves(p: Machine, n: Machine, e: Event)
    requires n.procs == p.procs && n.log == p.log
    ensures Logs(p, n, e) && forall t :: t in n.procs ==> Moves(p, n, e, t)
  {
  }

  lemma OneMoves(p: Machine, n: Machine, e: Event, t: nat, q: Process)
    requires n.procs == p.procs[t := q] && Moves(p, n, e, t) && Logs(p, n, e)
    ensures forall u :: u in n.procs ==> Moves(p, n, e, u)
  {
    hide Advances;
  }

  lemma CheckpointMoves(p: Machine, t: nat, ok: bool)
    requires t in p.procs
    ensures var n := MarkStep(p, t);
            Logs(p, n, Mark(t)) && Moves(p, n, Mark(t), t) && n.procs == p.procs[t := n.procs[t]]
    ensures var n := SaveStep(p, t, ok);
            Logs(p, n, Save(t, ok)) && Moves(p, n, Save(t, ok), t) && n.procs == p.procs[t := n.procs[t]]
  {
    hide MarkTxn, SnapshotOf, Advances;
  }

  lemma FenceMoves(p: Machine, t: nat, applied: bool, unproven: bool)
    requires t in p.procs
    ensures var n := FenceStep(p, t, applied, unproven);
            var e := FenceReply(t, applied, unproven);
            Logs(p, n, e) && Moves(p, n, e, t) && n.procs == p.procs[t := n.procs[t]]
  {
    hide FenceSource;
  }

  lemma ActivateMoves(p: Machine, t: nat, yes: bool)
    requires t in p.procs
    ensures var n := ActivateStep(p, t, yes);
            var e := ActivateReply(t, yes);
            Logs(p, n, e) && Moves(p, n, e, t) && n.procs == p.procs[t := n.procs[t]]
  {
  }

  lemma RouteMoves(p: Machine, t: nat, yes: bool)
    requires t in p.procs
    ensures var n := RouteStep(p, t);
            Logs(p, n, BuildRoute(t)) && Moves(p, n, BuildRoute(t), t) && n.procs == p.procs[t := n.procs[t]]
    ensures var n := InstallStep(p, t, yes);
            var e := RouteReply(t, yes);
            Logs(p, n, e) && Moves(p, n, e, t) && n.procs == p.procs[t := n.procs[t]]
  {
    hide RouteFor, Install;
  }

  lemma VerifyMoves(p: Machine, t: nat, verified: bool, now: int)
    requires t in p.procs
    ensures var n := VerifyStep(p, t, verified, now);
            var e := VerifyReply(t, verified, now);
            Logs(p, n, e) && Moves(p, n, e, t) && n.procs == p.procs[t := n.procs[t]]
  {
    hide CommitLedger, Supersedes, Extend, HasSlot, CurrentOf;
  }

  lemma AttemptMoves(p: Machine, e: Event)
    requires !e.Begin? && !e.Do? && !e.SaveNow? && e.tid in p.procs
    ensures Logs(p, Next(p, e), e) && forall u :: u in Next(p, e).procs ==> Moves(p, Next(p, e), e, u)
  {
    hide MarkStep, SaveStep, FenceStep, ActivateStep, RouteStep, InstallStep, VerifyStep, Moves, Logs;
    match e {
      case Mark(t) => CheckpointMoves(p, t, true);
      case Save(t, ok) => CheckpointMoves(p, t, ok);
      case FenceReply(t, applied, unproven) => FenceMoves(p, t, applied, unproven);
      case ActivateReply(t, yes) => ActivateMoves(p, t, yes);
      case BuildRoute(t) => RouteMoves(p, t, true);
      case RouteReply(t, yes) => RouteMoves(p, t, yes);
      case VerifyReply(t, verified, now) => VerifyMoves(p, t, verified, now);
    }
    OneMoves(p, Next(p, e), e, e.tid, Next(p, e).procs[e.tid]);
  }

  lemma BeginMoves(p: Machine, t: nat, plan: Plan)
    ensures var n := BeginStep(p, t, plan);
            Logs(p, n, Begin(t, plan)) && forall u :: u in n.procs ==> Moves(p, n, Begin(t, plan), u)
  {
    hide Validate, BeginSection, Advances;
  }

  lemma StepMoves(p: Machine, e: Event)
    ensures Logs(p, Next(p, e), e) && forall u :: u in Next(p, e).procs ==> Moves(p, Next(p, e), e, u)
  {
    match e {
      case Begin(t, plan) =>
        hide BeginStep, Moves, Logs;
        BeginMoves(p, t, plan);
      case Do(op) =>
        hide Perform, Extend, InitialAllowed, Moves, Logs;
        SameMoves(p, Next(p, e), e);
      case SaveNow =>
        hide SnapshotOf, Moves, Logs;
        SameMoves(p, Next(p, e), e);
      case _ =>
        hide Next, Moves, Logs;
        if e.tid in p.procs {
          AttemptMoves(p, e);
        } else {
          UnknownAttempt(p, e);
          SameMoves(p, Next(p, e), e);
        }
    }
  }

  lemma StepAnswered(m: Machine, es: seq<Event>, e: Event, p: Machine, n: Machine)
    requires p == Run(m, es) && Answered(m, es, p) && Logs(p, n, e) && forall t :: t in n.procs ==> Moves(p, n, e, t)
    ensures Answered(m, es + [e], n)
  {
    hide Run, Advances, AllHeard, Heard, Stage;
    forall t | t in n.procs ensures Heard(m, es + [e], t, n.procs[t].attempt, Stage(n.procs[t].pc)) {
      ProcessAnswered(m, es, e, p, n, t);
    }
    forall i | 0 <= i < |n.log| ensures AllHeard(m, es + [e], n.log[i].tid, n.log[i].attempt) {
      StillHeard(m, es, e, n.log[i].tid, n.log[i].attempt);
      if i < |p.log| {
        assert n.log[i] == p.log[i];
      } else {
        AllHeardNow(m, es, e, e.tid, p.procs[e.tid].attempt);
      }
    }
  }

  lemma ProcessAnswered(m: Machine, es: seq<Event>, e: Event, p: Machine, n: Machine, t: nat)
    requires p == Run(m, es) && Answered(m, es, p) && t in n.procs && Moves(p, n, e, t)
    ensures Heard(m, es + [e], t, n.procs[t].attempt, Stage(n.procs[t].pc))
  {
    hide Run, Advances, AllHeard, FenceHeard, ActivationHeard, RouteHeard;
    var s := Stage(n.procs[t].pc);
    if s != 0 {
      var a := p.procs[t].attempt;
      if s == Stage(p.procs[t].pc) {
        StillHeard(m, es, e, t, a);
      } else {
        HeardNow(m, es, e, t, a, s);
      }
    }
  }

  lemma {:induction false} RunsAreAnswered(m: Machine, es: seq<Event>)
    requires m.procs == map[] && m.log == []
    ensures Answered(m, es, Run(m, es))
    decreases |es|
  {
    if es == [] {
      hide Heard, AllHeard;
    } else {
      hide Next, Run, Answered, Logs, Moves;
      var init, e := es[..|es| - 1], es[|es| - 1];
      assert es == init + [e];
      RunsAreAnswered(m, init);
      RunSnoc(m, init, e);
      StepMoves(Run(m, init), e);
      StepAnswered(m, init, e, Run(m, init), Run(m, es));
    }
  }

  /** In every run, whatever interleaves: a commit on record comes after four positive replies to its own
      attempt, each given while the attempt was waiting for it, in this order: the fence applied and
      proven (or no source to fence), the activation acknowledged, the route acknowledged, verified. */
  lemma CommittedWasAnswered(m: Machine, es: seq<Event>, c: nat) returns (i: nat, j: nat, k: nat, l: nat)
    requires m.procs == map[] && m.log == [] && c < |Run(m, es).log|
    ensures i < j < k < l < |es|
    ensures var t := Run(m, es).log[c].tid;
            var a := Run(m, es).log[c].attempt;
            && es[i].FenceReply? && es[i].tid == t && At(Run(m, es[..i]), t, ToFence)
            && (a.source.Some? ==> es[i].applied && !es[i].unproven)
            && es[j] == ActivateReply(t, true) && At(Run(m, es[..j]), t, ToActivate)
            && es[k] == RouteReply(t, true) && At(Run(m, es[..k]), t, ToInstall)
            && es[l].VerifyReply? && es[l].tid == t && es[l].verified && At(Run(m, es[..l]), t, ToVerify)
  {
    hide Run, At, Heard;
    RunsAreAnswered(m, es);
    var t, a := Run(m, es).log[c].tid, Run(m, es).log[c].attempt;
    assert AllHeard(m, es, t, a);
    i, j, k, l :| i < j < k < l &&
      Fenced(m, es, t, a, i) && Activated(m, es, t, j) && Routed(m, es, t, k) && Verified(m, es, t, l);
  }
}
