/** The worker's loop, with handlers running between its turns, and how it paces a run. */
module Worker {
  import opened Timestamp
  import opened Storage
  import opened AuditView
  import opened Protocol
  import opened Sweep
  import opened Runs
  import opened Elevation
  import Service

  // One atomic operation of the service.
  method Serve(svc: Service.Service, ghost clock: Instant, op: Op)
    requires svc.Valid() && Admissible(svc.cfg, svc.View(), clock, op)
    modifies svc.db, svc.kc, svc.notify
    ensures svc.Valid() && svc.View() == Step(svc.cfg, old(svc.View()), op)
  {
    hide Create, Approve, Release, Reconcile, Session, Sound, Numbered, Decoded;
    match op
    case CreateOp(actor, username, justification, eligible, id, now, breakGlass, c) =>
      var _ := svc.HandleCreate(actor, username, justification, eligible, id, now, breakGlass, c);
    case ApproveOp(actor, permanent, text, id, now, breakGlass, c) =>
      var _ := svc.HandleApprove(actor, permanent, text, id, now, breakGlass, c);
    case ReleaseOp(actor, permanent, id, c) =>
      var _ := svc.HandleRelease(actor, permanent, id, c);
    case ReconcileOp(pass) =>
      var _ := svc.Reconcile(pass);
    case SessionOp(actor, breakGlass, audit) =>
      var _ := svc.HandleMe(actor, breakGlass, audit);
  }

  // What happens while the loop waits: a tick, a handler serving a request, or the end of its context.
  datatype Event = Tick(pass: Pass) | Handled(op: Op) | Stopped

  // The operations up to the end of the context.
  function Ops(events: seq<Event>): seq<Op> {
    if events == [] || events[0].Stopped? then []
    else [if events[0].Tick? then ReconcileOp(events[0].pass) else events[0].op] + Ops(events[1..])
  }

  // What happens up to the first stop, and nothing after it: every tick runs its pass, every handler its operation.
  lemma {:induction false} OpsUpToStop(events: seq<Event>, n: nat)
    requires n <= |events| && (forall i :: 0 <= i < n ==> !events[i].Stopped?) && (n < |events| ==> events[n].Stopped?)
    ensures |Ops(events)| == n
    ensures forall i :: 0 <= i < n ==> Ops(events)[i] == match events[i] case Tick(pass) => ReconcileOp(pass) case Handled(op) => op
  {
    if n > 0 {
      OpsUpToStop(events[1..], n - 1);
      assert forall i :: 1 <= i < n ==> Ops(events)[i] == Ops(events[1..])[i - 1] && events[i] == events[1..][i - 1];
    }
  }

  // One pass a tick until the context is done; a failed pass is not retried. Whatever handlers do
  // in between, the service goes through a run.
  method RunWorker(svc: Service.Service, ghost clock: Instant, events: seq<Event>)
    requires svc.Valid() && IsRun(svc.cfg, svc.View(), clock, Ops(events))
    modifies svc.db, svc.kc, svc.notify
    ensures svc.Valid() && svc.View() == Run(svc.cfg, old(svc.View()), clock, Ops(events))
  {
    hide Step, Admissible, Sound, Numbered, Decoded;
    ghost var start, now := svc.View(), clock;
    for i := 0 to |events|
      invariant svc.Valid() && IsRun(svc.cfg, svc.View(), now, Ops(events[i..]))
      invariant Run(svc.cfg, start, clock, Ops(events)) == Run(svc.cfg, svc.View(), now, Ops(events[i..]))
    {
      assert events[i..][1..] == events[i + 1..];
      ghost var ops := Ops(events[i..]);
      match events[i]
      case Stopped =>
        return;
      case Tick(pass) =>
        assert ops[0] == ReconcileOp(pass) && ops[1..] == Ops(events[i + 1..]);
        Serve(svc, now, ReconcileOp(pass));
        now := When(ReconcileOp(pass), now);
      case Handled(op) =>
        assert ops[0] == op && ops[1..] == Ops(events[i + 1..]);
        Serve(svc, now, op);
        now := When(op, now);
    }
  }

  // ----- pacing -----

  // Each pass starts at most `gap` after the one before.
  predicate PassesApart(last: Instant, gap: nat, ops: seq<Op>)
    decreases |ops|
  {
    ops == [] ||
    if ops[0].ReconcileOp? then ops[0].pass.now <= last + gap && PassesApart(ops[0].pass.now, gap, ops[1..])
    else PassesApart(last, gap, ops[1..])
  }

  lemma {:induction false} EndOfRun(cfg: Config, s: State, clock: Instant, ops: seq<Op>)
    requires IsRun(cfg, s, clock, ops)
    ensures clock <= EndOf(clock, ops)
    decreases |ops|
  {
    hide Step, When;
    if ops != [] {
      EndOfRun(cfg, Step(cfg, s, ops[0]), When(ops[0], clock), ops[1..]);
    }
  }

  // A run is paced exactly when its passes are at most `gap` apart and it ends at most `gap`
  // after the last: what handlers do in between does not matter.
  lemma {:induction false} PacedByPasses(cfg: Config, s: State, clock: Instant, ops: seq<Op>, last: Instant, gap: nat)
    requires IsRun(cfg, s, clock, ops) && clock <= last + gap
    ensures Paced(last, clock, gap, ops) <==> PassesApart(last, gap, ops) && EndOf(clock, ops) <= LastPass(last, ops) + gap
    decreases |ops|
  {
    hide Step;
    if ops != [] {
      var op := ops[0];
      var s', clock', last' := Step(cfg, s, op), When(op, clock), if op.ReconcileOp? then op.pass.now else last;
      if clock' <= last' + gap {
        PacedByPasses(cfg, s', clock', ops[1..], last', gap);
      }
      EndOfRun(cfg, s', clock', ops[1..]);
      if !op.ReconcileOp? && clock' > last + gap && PassesApart(last, gap, ops) {
        LateForever(cfg, s', clock', ops[1..], last, gap);
      }
    }
  }

  // Once the clock is more than `gap` past the last pass, no next pass is in time.
  lemma {:induction false} LateForever(cfg: Config, s: State, clock: Instant, ops: seq<Op>, last: Instant, gap: nat)
    requires IsRun(cfg, s, clock, ops) && clock > last + gap && PassesApart(last, gap, ops)
    ensures EndOf(clock, ops) > LastPass(last, ops) + gap
    decreases |ops|
  {
    hide Step;
    if ops != [] && !ops[0].ReconcileOp? {
      LateForever(cfg, Step(cfg, s, ops[0]), When(ops[0], clock), ops[1..], last, gap);
    }
  }

  // The passes of an idle service: their times are in order and each reads the whole table.
  ghost predicate Ticking(s: State, clock: Instant, ops: seq<Op>)
    decreases |ops|
  {
    ops == [] ||
    (ops[0].ReconcileOp? && clock <= ops[0].pass.now && InRange(ops[0].pass.now) && PassFits(s, ops[0].pass)
     && (forall id :: InRange(ops[0].pass.row(id).at))
     && Ticking(s, ops[0].pass.now, ops[1..]))
  }

  // Ticks whose times are in order form a run, and it is paced when they are at most `gap` apart.
  lemma {:induction false} TicksAreRun(cfg: Config, s: State, s': State, clock: Instant, ops: seq<Op>, last: Instant, gap: nat)
    requires Ticking(s, clock, ops) && s'.reqs.Keys == s.reqs.Keys
    ensures IsRun(cfg, s', clock, ops)
    ensures PassesApart(last, gap, ops) ==> Paced(last, clock, gap, ops)
    decreases |ops|
  {
    hide Reconcile;
    if ops != [] {
      TicksAreRun(cfg, s, Step(cfg, s', ops[0]), ops[0].pass.now, ops[1..], ops[0].pass.now, gap);
    }
  }
}
