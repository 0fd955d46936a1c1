/** Whole runs of the service: sequences of atomic operations, each with any pattern of failures. */
module Runs {
  import opened Timestamp
  import opened Protocol
  import opened Sweep

  datatype Op =
    | CreateOp(actor: string, username: string, justification: string, eligible: Answer, id: string, now: Instant, breakGlass: bool, c: Calls)
    | ApproveOp(actor: string, permanent: Answer, text: string, id: string, now: Instant, breakGlass: bool, c: Calls)
    | ReleaseOp(actor: string, permanent: Answer, id: string, c: Calls)
    | ReconcileOp(pass: Pass)
    | SessionOp(actor: string, breakGlass: bool, audit: bool)

  function Step(cfg: Config, s: State, op: Op): State {
    match op
    case CreateOp(actor, username, justification, eligible, id, now, breakGlass, c) =>
      Create(cfg, s, actor, username, justification, eligible, id, now, breakGlass, c).state
    case ApproveOp(actor, permanent, text, id, now, breakGlass, c) =>
      Approve(cfg, s, actor, permanent, text, id, now, breakGlass, c).state
    case ReleaseOp(actor, permanent, id, c) => Release(cfg, s, actor, permanent, id, c).state
    case ReconcileOp(pass) => if PlansFit(s, pass) then Reconcile(cfg, s, pass) else s
    case SessionOp(actor, breakGlass, audit) => Session(s, actor, breakGlass, audit)
  }

  // The time an operation reads first; a session leaves the clock where it was.
  function When(op: Op, clock: Instant): Instant {
    match op
    case CreateOp(_, _, _, _, _, now, _, _) => now
    case ApproveOp(_, _, _, _, now, _, _) => now
    case ReleaseOp(_, _, _, c) => c.at
    case ReconcileOp(pass) => pass.now
    case SessionOp(_, _, _) => clock
  }

  // The clock never runs back, ids are fresh, years have four digits, and a query may return
  // its rows in any order.
  ghost predicate Admissible(cfg: Config, s: State, clock: Instant, op: Op) {
    && clock <= When(op, clock) && InRange(When(op, clock))
    && match op
       case CreateOp(_, _, _, _, id, now, _, _) => id !in s.reqs && InRange(now + cfg.requestTTL)
       case ApproveOp(_, _, _, _, now, _, _) => InRange(now + cfg.activeTTL)
       case ReleaseOp(_, _, _, _) => true
       case ReconcileOp(pass) => PassFits(s, pass) && forall id :: InRange(pass.row(id).at)
       case SessionOp(_, _, _) => true
  }

  lemma AdmissibleCreate(cfg: Config, s: State, clock: Instant, op: Op)
    requires op.CreateOp? && Admissible(cfg, s, clock, op)
    ensures op.id !in s.reqs
  {}

  lemma AdmissiblePass(cfg: Config, s: State, clock: Instant, op: Op)
    requires op.ReconcileOp? && Admissible(cfg, s, clock, op)
    ensures PassFits(s, op.pass)
  {}

  ghost predicate IsRun(cfg: Config, s: State, clock: Instant, ops: seq<Op>)
    decreases |ops|
  {
    ops == [] ||
    (Admissible(cfg, s, clock, ops[0]) && IsRun(cfg, Step(cfg, s, ops[0]), When(ops[0], clock), ops[1..]))
  }

  function Run(cfg: Config, s: State, clock: Instant, ops: seq<Op>): State
    decreases |ops|
  {
    if ops == [] then s else Run(cfg, Step(cfg, s, ops[0]), When(ops[0], clock), ops[1..])
  }

  function EndOf(clock: Instant, ops: seq<Op>): Instant
    decreases |ops|
  {
    if ops == [] then clock else EndOf(When(ops[0], clock), ops[1..])
  }

  // A run cut off after some operations is a run.
  lemma {:induction false} PrefixIsRun(cfg: Config, s: State, clock: Instant, ops: seq<Op>, k: nat)
    requires IsRun(cfg, s, clock, ops) && k <= |ops|
    ensures IsRun(cfg, s, clock, ops[..k])
    decreases |ops|
  {
    hide Step, When, Admissible;
    if k > 0 {
      assert ops[..k][1..] == ops[1..][..k - 1];
      PrefixIsRun(cfg, Step(cfg, s, ops[0]), When(ops[0], clock), ops[1..], k - 1);
    }
  }

  // A run followed by a run.
  lemma {:induction false} RunJoined(cfg: Config, s: State, clock: Instant, a: seq<Op>, b: seq<Op>)
    ensures Run(cfg, s, clock, a + b) == Run(cfg, Run(cfg, s, clock, a), EndOf(clock, a), b)
    ensures EndOf(clock, a + b) == EndOf(EndOf(clock, a), b)
    ensures IsRun(cfg, s, clock, a + b) <==> IsRun(cfg, s, clock, a) && IsRun(cfg, Run(cfg, s, clock, a), EndOf(clock, a), b)
    decreases |a|
  {
    hide Step, When, Admissible;
    if a == [] {
      assert a + b == b;
    } else {
      assert (a + b)[0] == a[0] && (a + b)[1..] == a[1..] + b;
      RunJoined(cfg, Step(cfg, s, a[0]), When(a[0], clock), a[1..], b);
    }
  }

  lemma RunSnoc(cfg: Config, s: State, clock: Instant, ops: seq<Op>, op: Op)
    ensures Run(cfg, s, clock, ops + [op]) == Step(cfg, Run(cfg, s, clock, ops), op)
    ensures EndOf(clock, ops + [op]) == When(op, EndOf(clock, ops))
    ensures IsRun(cfg, s, clock, ops + [op]) <==>
            IsRun(cfg, s, clock, ops) && Admissible(cfg, Run(cfg, s, clock, ops), EndOf(clock, ops), op)
  {
    hide Step, When, Admissible;
    RunJoined(cfg, s, clock, ops, [op]);
    assert [op][1..] == [];
  }
}
