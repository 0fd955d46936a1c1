/** How long past its deadline an elevation can last in a fault-free run with paced passes. */
module Elevation {
  import opened Text
  import opened Timestamp
  import opened Deadlines
  import opened Requests
  import opened Protocol
  import opened Sweep
  import opened Runs
  import opened Lifecycle
  import opened Membership

  // The start of the last pass, as operations go by.
  function LastPass(last: Instant, ops: seq<Op>): Instant
    decreases |ops|
  {
    if ops == [] then last
    else LastPass(if ops[0].ReconcileOp? then ops[0].pass.now else last, ops[1..])
  }

  // No operation starts more than `gap` after the start of the last pass before it.
  predicate Paced(last: Instant, clock: Instant, gap: nat, ops: seq<Op>)
    decreases |ops|
  {
    ops == [] ||
    (When(ops[0], clock) <= last + gap
     && Paced(if ops[0].ReconcileOp? then ops[0].pass.now else last, When(ops[0], clock), gap, ops[1..]))
  }

  // No approved row's deadline is more than `slack` before `last`.
  predicate Fresh(s: State, last: Instant, slack: nat) {
    forall id :: id in s.reqs && s.reqs[id].status == Approved ==>
      s.reqs[id].activeExpiresAt.Some? && s.reqs[id].activeExpiresAt.value + slack >= last
  }

  // A pass that skips an approved row is at most `slack` past its deadline.
  predicate SkipsWithin(s: State, now: Instant, slack: nat) {
    forall id | id in s.reqs && s.reqs[id].status == Approved && s.reqs[id].activeExpiresAt.Some? ::
      !Due(s.reqs[id].activeExpiresAt.value, now) ==> s.reqs[id].activeExpiresAt.value + slack >= now
  }

  ghost predicate RunSkipsWithin(cfg: Config, s: State, clock: Instant, ops: seq<Op>, slack: nat)
    requires IsRun(cfg, s, clock, ops)
    decreases |ops|
  {
    ops == [] ||
    ((ops[0].ReconcileOp? ==> SkipsWithin(s, ops[0].pass.now, slack))
     && RunSkipsWithin(cfg, Step(cfg, s, ops[0]), When(ops[0], clock), ops[1..], slack))
  }

  lemma StepFresh(cfg: Config, s: State, clock: Instant, op: Op, last: Instant, slack: nat)
    requires Shaped(cfg, clock, s) && Admissible(cfg, s, clock, op) && FaultFree(op)
    requires last <= clock && Fresh(s, last, slack)
    requires op.ReconcileOp? ==> SkipsWithin(s, op.pass.now, slack)
    ensures Fresh(Step(cfg, s, op), if op.ReconcileOp? then op.pass.now else last, slack)
  {
    hide Step, FaultFree, Fresh, SkipsWithin;
    match op
    case CreateOp(_, _, _, _, _, _, _, _) =>
      hide Shaped;
      CreateFresh(cfg, s, op, last, slack);
    case ApproveOp(_, _, _, _, _, _, _) => ApproveFresh(cfg, s, clock, op, last, slack);
    case ReleaseOp(_, _, _, _) => ReleaseFresh(cfg, s, op, last, slack);
    case ReconcileOp(pass) => PassFresh(cfg, s, pass, slack);
    case SessionOp(_, _, _) =>
      SessionRows(cfg, s, op);
      SameFresh(s, Step(cfg, s, op), last, slack);
  }

  lemma SameFresh(s: State, s': State, last: Instant, slack: nat)
    requires Fresh(s, last, slack) && s'.reqs == s.reqs
    ensures Fresh(s', last, slack)
  {}

  lemma CreateFresh(cfg: Config, s: State, op: Op, last: Instant, slack: nat)
    requires op.CreateOp? && Fresh(s, last, slack)
    ensures Fresh(Step(cfg, s, op), last, slack)
  {
    hide Step, Creates, Asker, TrimSpace, Trimmed;
    CreateRows(cfg, s, op);
  }

  lemma ReleaseFresh(cfg: Config, s: State, op: Op, last: Instant, slack: nat)
    requires op.ReleaseOp? && Keyed(s) && Fresh(s, last, slack)
    ensures Fresh(Step(cfg, s, op), last, slack)
  {
    hide Step, Releases;
    ReleaseRows(cfg, s, op);
  }

  lemma ApproveFresh(cfg: Config, s: State, clock: Instant, op: Op, last: Instant, slack: nat)
    requires Shaped(cfg, clock, s) && op.ApproveOp? && clock <= op.now && last <= clock && Fresh(s, last, slack)
    ensures Fresh(Step(cfg, s, op), last, slack)
  {
    hide Step, TrimSpace, Trimmed, Size, Granted, Untouched, Storable;
    ApproveRows(cfg, s, op);
  }

  lemma PassFresh(cfg: Config, s: State, p: Pass, slack: nat)
    requires Keyed(s) && PassFits(s, p) && FaultFree(ReconcileOp(p)) && SkipsWithin(s, p.now, slack)
    requires forall id :: id in s.reqs && s.reqs[id].status == Approved ==> s.reqs[id].activeExpiresAt.Some?
    ensures Fresh(Step(cfg, s, ReconcileOp(p)), p.now, slack)
  {
    hide Reconcile, Due;
    ReconcileExact(cfg, s, p);
    var s' := Reconcile(cfg, s, p);
    forall id | id in s'.reqs && s'.reqs[id].status == Approved
      ensures s'.reqs[id].activeExpiresAt.Some? && s'.reqs[id].activeExpiresAt.value + slack >= p.now
    {
      assert Faultless(p.row(s.reqs[id].id));
      assert s'.reqs[id] == RowAfter(s.reqs[id], p) == s.reqs[id];
    }
  }

  lemma {:induction false} RunFresh(cfg: Config, s: State, clock: Instant, ops: seq<Op>, last: Instant, slack: nat)
    requires Shaped(cfg, clock, s) && last <= clock && Fresh(s, last, slack)
    requires IsRun(cfg, s, clock, ops) && RunSkipsWithin(cfg, s, clock, ops, slack)
    requires forall i :: 0 <= i < |ops| ==> FaultFree(ops[i])
    ensures Fresh(Run(cfg, s, clock, ops), LastPass(last, ops), slack)
    decreases |ops|
  {
    hide Step, Shaped, Fresh, FaultFree, SkipsWithin;
    if ops != [] {
      StepFresh(cfg, s, clock, ops[0], last, slack);
      StepAdvances(cfg, s, clock, ops[0]);
      RunFresh(cfg, Step(cfg, s, ops[0]), When(ops[0], clock), ops[1..],
               if ops[0].ReconcileOp? then ops[0].pass.now else last, slack);
    }
  }

  lemma FaultFreeWritesGrants(ops: seq<Op>)
    requires forall i :: 0 <= i < |ops| ==> FaultFree(ops[i])
    ensures WritesGrants(ops)
  {
    forall i | 0 <= i < |ops| && ops[i].ApproveOp? ensures ops[i].c.group == Done && ops[i].c.write {
      assert FaultFree(ops[i]);
    }
  }

  // A member at `t`, up to `gap` after the last pass, has a row approved less than
  // ActiveTTL + gap + slack before, where `slack` is only how far passes misjudge deadlines.
  lemma ElevationWithSlack(cfg: Config, s: State, clock: Instant, ops: seq<Op>, last: Instant, gap: nat, slack: nat, t: Instant, u: string)
    requires Shaped(cfg, clock, s) && Covered(s) && last <= clock && Fresh(s, last, slack)
    requires IsRun(cfg, s, clock, ops) && RunSkipsWithin(cfg, s, clock, ops, slack)
    requires forall i :: 0 <= i < |ops| ==> FaultFree(ops[i])
    requires t <= LastPass(last, ops) + gap && u in Run(cfg, s, clock, ops).active
    ensures exists id :: Holds(Run(cfg, s, clock, ops), id, u)
              && Run(cfg, s, clock, ops).reqs[id].approvedAt.Some?
              && Run(cfg, s, clock, ops).reqs[id].approvedAt.value + cfg.activeTTL + gap + slack >= t
  {
    hide Run, IsRun, RunSkipsWithin, FaultFree, LastPass;
    FaultFreeWritesGrants(ops);
    RunCoverage(cfg, s, clock, ops);
    RunKeepsShape(cfg, s, clock, ops);
    RunFresh(cfg, s, clock, ops, last, slack);
    var s' := Run(cfg, s, clock, ops);
    var id :| Holds(s', id, u);
    assert WellShaped(cfg, EndOf(clock, ops), id, s'.reqs[id]);
  }

  // The text comparison misjudges a deadline by less than a second, in any run.
  lemma {:induction false} TextSlack(cfg: Config, s: State, clock: Instant, ops: seq<Op>)
    requires Shaped(cfg, clock, s) && IsRun(cfg, s, clock, ops)
    ensures RunSkipsWithin(cfg, s, clock, ops, SECOND - 1)
    decreases |ops|
  {
    hide Step;
    if ops != [] {
      if ops[0].ReconcileOp? {
        SkipsWithinOneSecond(cfg, s, clock, ops[0].pass.now);
      }
      StepAdvances(cfg, s, clock, ops[0]);
      hide Shaped, SkipsWithin;
      TextSlack(cfg, Step(cfg, s, ops[0]), When(ops[0], clock), ops[1..]);
    }
  }

  lemma SkipsWithinOneSecond(cfg: Config, s: State, clock: Instant, now: Instant)
    requires Shaped(cfg, clock, s) && InRange(now)
    ensures SkipsWithin(s, now, SECOND - 1)
  {
    hide Due;
    forall id | id in s.reqs && s.reqs[id].status == Approved && s.reqs[id].activeExpiresAt.Some?
      && !Due(s.reqs[id].activeExpiresAt.value, now)
      ensures s.reqs[id].activeExpiresAt.value + (SECOND - 1) >= now
    {
      assert WellShaped(cfg, clock, id, s.reqs[id]);
      DueOutsideOneSecond(s.reqs[id].activeExpiresAt.value, now);
    }
  }

  // Where no stored deadline compares the wrong way round with the pass's time, there is no slack.
  lemma NoSlackInTextOrder(cfg: Config, s: State, clock: Instant, now: Instant)
    requires Shaped(cfg, clock, s) && InRange(now)
    requires forall id | id in s.reqs && s.reqs[id].status == Approved && s.reqs[id].activeExpiresAt.Some? ::
               InRange(s.reqs[id].activeExpiresAt.value) ==> !Reversed(s.reqs[id].activeExpiresAt.value, now)
    ensures SkipsWithin(s, now, 0)
  {
    hide Due, Reversed;
    forall id | id in s.reqs && s.reqs[id].status == Approved && s.reqs[id].activeExpiresAt.Some?
      && !Due(s.reqs[id].activeExpiresAt.value, now)
      ensures s.reqs[id].activeExpiresAt.value >= now
    {
      assert WellShaped(cfg, clock, id, s.reqs[id]);
      DueAgainstLate(s.reqs[id].activeExpiresAt.value, now);
    }
  }

  // ----- any moment of a paced run -----

  lemma {:induction false} NextStartIsPaced(last: Instant, clock: Instant, gap: nat, ops: seq<Op>, k: nat)
    requires Paced(last, clock, gap, ops) && k < |ops|
    ensures When(ops[k], EndOf(clock, ops[..k])) <= LastPass(last, ops[..k]) + gap
    decreases |ops|
  {
    hide When;
    if k > 0 {
      assert ops[..k][1..] == ops[1..][..k - 1];
      NextStartIsPaced(if ops[0].ReconcileOp? then ops[0].pass.now else last, When(ops[0], clock), gap, ops[1..], k - 1);
    }
  }

  // The moments at which the first `k` operations, and no more, have run.
  ghost predicate Between(start: Instant, ops: seq<Op>, gap: nat, k: nat, t: Instant) {
    && k <= |ops| && EndOf(start, ops[..k]) <= t
    && if k < |ops| then t <= When(ops[k], EndOf(start, ops[..k])) else t <= LastPass(start, ops) + gap
  }

  // Bounded elevation: take a fault-free run from an empty table whose passes start at most `gap`
  // apart. At every moment of it a member has a row approved less than ActiveTTL + gap + 1s before.
  lemma BoundedElevation(cfg: Config, start: Instant, ops: seq<Op>, gap: nat, k: nat, t: Instant, u: string)
    requires IsRun(cfg, EMPTY, start, ops) && Paced(start, start, gap, ops)
    requires forall i :: 0 <= i < |ops| ==> FaultFree(ops[i])
    requires Between(start, ops, gap, k, t)
    requires u in Run(cfg, EMPTY, start, ops[..k]).active
    ensures var s := Run(cfg, EMPTY, start, ops[..k]);
            exists id :: Holds(s, id, u) && s.reqs[id].approvedAt.Some?
              && s.reqs[id].approvedAt.value + cfg.activeTTL + gap + SECOND > t
  {
    hide Run, IsRun, RunSkipsWithin, FaultFree, LastPass, Paced, EndOf, When;
    if k < |ops| {
      NextStartIsPaced(start, start, gap, ops, k);
    } else {
      assert ops[..k] == ops;
    }
    PrefixIsRun(cfg, EMPTY, start, ops, k);
    TextSlack(cfg, EMPTY, start, ops[..k]);
    ElevationWithSlack(cfg, EMPTY, start, ops[..k], start, gap, SECOND - 1, t, u);
  }

  // ----- requests nobody answers -----

  // No pending request's deadline is a second or more before `last`.
  predicate PendingFresh(s: State, last: Instant) {
    forall id :: id in s.reqs && s.reqs[id].status == Pending ==> s.reqs[id].requestExpiresAt + SECOND > last
  }

  lemma StepPendingFresh(cfg: Config, s: State, clock: Instant, op: Op, last: Instant)
    requires Shaped(cfg, clock, s) && Admissible(cfg, s, clock, op) && FaultFree(op) && last <= clock && PendingFresh(s, last)
    ensures PendingFresh(Step(cfg, s, op), if op.ReconcileOp? then op.pass.now else last)
  {
    hide Step, TrimSpace, Trimmed, Size, WellShaped;
    ShapedIsKeyed(cfg, clock, s);
    match op
    case CreateOp(_, _, _, _, _, _, _, _) => CreateRows(cfg, s, op);
    case ApproveOp(_, _, _, _, _, _, _) => ApproveRows(cfg, s, op);
    case ReleaseOp(_, _, _, _) => ReleaseRows(cfg, s, op);
    case ReconcileOp(pass) => PassPendingFresh(cfg, s, clock, pass);
    case SessionOp(_, _, _) => SessionRows(cfg, s, op);
  }

  lemma PassPendingFresh(cfg: Config, s: State, clock: Instant, p: Pass)
    requires Shaped(cfg, clock, s) && Keyed(s) && Admissible(cfg, s, clock, ReconcileOp(p)) && FaultFree(ReconcileOp(p))
    ensures PendingFresh(Step(cfg, s, ReconcileOp(p)), p.now)
  {
    hide Reconcile, Keyed;
    forall id | id in s.reqs
      ensures Reconcile(cfg, s, p).reqs[id].status == Pending ==> Reconcile(cfg, s, p).reqs[id].requestExpiresAt + SECOND > p.now
    {
      assert WellShaped(cfg, clock, id, s.reqs[id]) && Faultless(p.row(id));
      hide PassFits;
      PassByTheClock(cfg, s, p, id);
      StepAdvances(cfg, s, clock, ReconcileOp(p));
      assert Moves(s.reqs[id], Step(cfg, s, ReconcileOp(p)).reqs[id]);
    }
  }

  lemma {:induction false} RunPendingFresh(cfg: Config, s: State, clock: Instant, ops: seq<Op>, last: Instant)
    requires Shaped(cfg, clock, s) && last <= clock && PendingFresh(s, last) && IsRun(cfg, s, clock, ops)
    requires forall i :: 0 <= i < |ops| ==> FaultFree(ops[i])
    ensures PendingFresh(Run(cfg, s, clock, ops), LastPass(last, ops))
    decreases |ops|
  {
    hide Step, Shaped, PendingFresh, FaultFree;
    if ops != [] {
      StepPendingFresh(cfg, s, clock, ops[0], last);
      StepAdvances(cfg, s, clock, ops[0]);
      RunPendingFresh(cfg, Step(cfg, s, ops[0]), When(ops[0], clock), ops[1..], if ops[0].ReconcileOp? then ops[0].pass.now else last);
    }
  }

  // In such a run no request stays pending for RequestTTL + gap + 1s.
  lemma BoundedWait(cfg: Config, start: Instant, ops: seq<Op>, gap: nat, k: nat, t: Instant, id: string)
    requires IsRun(cfg, EMPTY, start, ops) && Paced(start, start, gap, ops)
    requires forall i :: 0 <= i < |ops| ==> FaultFree(ops[i])
    requires Between(start, ops, gap, k, t)
    requires id in Run(cfg, EMPTY, start, ops[..k]).reqs && Run(cfg, EMPTY, start, ops[..k]).reqs[id].status == Pending
    ensures t < Run(cfg, EMPTY, start, ops[..k]).reqs[id].createdAt + cfg.requestTTL + gap + SECOND
  {
    hide Run, IsRun, FaultFree, LastPass, Paced, EndOf, When;
    if k < |ops| {
      NextStartIsPaced(start, start, gap, ops, k);
    } else {
      assert ops[..k] == ops;
    }
    PrefixIsRun(cfg, EMPTY, start, ops, k);
    RunPendingFresh(cfg, EMPTY, start, ops[..k], start);
    RunKeepsShape(cfg, EMPTY, start, ops[..k]);
    assert WellShaped(cfg, EndOf(start, ops[..k]), id, Run(cfg, EMPTY, start, ops[..k]).reqs[id]);
  }
}
