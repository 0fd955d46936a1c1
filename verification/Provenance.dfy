/** Who and what stands behind every event of the log and every row of the table. */
module Provenance {
  import opened Wrappers
  import opened Text
  import opened Timestamp
  import opened Deadlines
  import opened Requests
  import opened Storage
  import opened AuditView
  import opened Protocol
  import opened Sweep
  import opened Runs
  import opened Lifecycle

  // ----- the events of one operation -----

  predicate About(e: AuditEvent, r: Request) {
    e.requestId == r.id && e.subject == r.username && e.justification == r.justification
  }

  predicate BySystem(e: AuditEvent) {
    e.actor == "system" && !e.breakGlass
  }

  // The pass finds the pending request due and writes that it expired.
  predicate Lapses(s: State, p: Pass, id: string) {
    id in s.reqs && PendingOverdue(s.reqs[id], p.now) && p.query && p.row(id).write
  }

  // The pass finds the grant due and ends it.
  predicate RunsOut(s: State, p: Pass, id: string) {
    id in s.reqs && ActiveOverdue(s.reqs[id], p.now) && p.query && p.query2 && p.row(id).group == Done && p.row(id).write
  }

  // The operation, begun in `s`, logs this event.
  predicate Causes(cfg: Config, s: State, op: Op, e: AuditEvent) {
    match e.action
    case RequestCreated =>
      && Creates(s, op) && op.c.audit
      && e.requestId == op.id && e.subject == Asker(op) && e.justification == TrimSpace(op.justification)
      && e.actor == op.actor && e.breakGlass == op.breakGlass && e.detail == "pending elevation request"
    case RequestApproved =>
      && Approves(s, op) && op.c.audit && About(e, s.reqs[op.id])
      && e.actor == op.actor && e.breakGlass == op.breakGlass && e.detail == "notes: " + TrimSpace(op.text)
    case GrantActive =>
      && Approves(s, op) && op.c.audit2 && About(e, s.reqs[op.id])
      && e.actor == op.actor && e.breakGlass == op.breakGlass && e.detail == "user added to " + cfg.activeGroup
    case RequestExpired =>
      && BySystem(e) && e.requestId in s.reqs && About(e, s.reqs[e.requestId])
      && (|| (ExpiresLate(s, op) && op.id == e.requestId && op.c.audit && e.detail == "expired before approve")
          || (op.ReconcileOp? && Lapses(s, op.pass, e.requestId) && op.pass.row(e.requestId).audit && e.detail == "request TTL elapsed"))
    case EarlyRelease =>
      && Releases(s, op) && op.c.audit && About(e, s.reqs[op.id])
      && e.actor == (if op.actor == "" then "system" else op.actor) && !e.breakGlass && e.detail == "removed from " + cfg.activeGroup
    case GrantExpired =>
      && BySystem(e) && op.ReconcileOp? && RunsOut(s, op.pass, e.requestId) && About(e, s.reqs[e.requestId])
      && op.pass.row(e.requestId).audit && e.detail == "active TTL elapsed; revoked"
    case BreakGlassSession =>
      && op.SessionOp? && op.actor != "" && op.breakGlass && op.audit
      && e.actor == op.actor && e.subject == op.actor && e.requestId == "" && e.justification == ""
      && e.breakGlass && e.detail == "break-glass user authenticated to PIM"
  }

  function Unstamped(e: AuditEvent): AuditEvent {
    e.(id := 0)
  }

  // The log grows by exactly these events, each once, with the next ids.
  ghost predicate Adds(log: seq<AuditEvent>, log': seq<AuditEvent>, said: iset<AuditEvent>) {
    && log <= log'
    && (forall i :: |log| <= i < |log'| ==> log'[i].id == i + 1 && Unstamped(log'[i]) in said)
    && (forall e :: e in said ==> exists i :: |log| <= i < |log'| && Unstamped(log'[i]) == e)
    && (forall i, j :: |log| <= i < j < |log'| ==> Unstamped(log'[i]) != Unstamped(log'[j]))
  }

  ghost function Said(cfg: Config, s: State, op: Op): iset<AuditEvent> {
    iset e: AuditEvent | e.id == 0 && Causes(cfg, s, op, e)
  }

  lemma AddsNothing(log: seq<AuditEvent>)
    ensures Adds(log, log, iset{})
  {}

  lemma AddsOne(log: seq<AuditEvent>, e: AuditEvent)
    requires e.id == 0
    ensures Adds(log, Appended(log, e), iset{e})
  {
    assert Unstamped(Appended(log, e)[|log|]) == e;
  }

  lemma AddsThen(a: seq<AuditEvent>, b: seq<AuditEvent>, c: seq<AuditEvent>, p: iset<AuditEvent>, q: iset<AuditEvent>)
    requires Adds(a, b, p) && Adds(b, c, q) && p !! q
    ensures Adds(a, c, p + q)
  {
    hide Unstamped;
    assert forall i :: 0 <= i < |b| ==> c[i] == b[i];
    forall e | e in p ensures exists i :: |a| <= i < |c| && Unstamped(c[i]) == e {
      var i :| |a| <= i < |b| && Unstamped(b[i]) == e;
      assert Unstamped(c[i]) == e;
    }
  }

  // An event that may be lost.
  lemma AddsIf(s: State, e: AuditEvent, up: bool)
    requires e.id == 0
    ensures Adds(s.log, Logged(s, e, up).log, if up then iset{e} else iset{})
  {
    hide Appended, Adds;
    AddsOne(s.log, e);
    AddsNothing(s.log);
  }

  lemma CreateSays(cfg: Config, s: State, op: Op)
    requires op.CreateOp?
    ensures Adds(s.log, Step(cfg, s, op).log, Said(cfg, s, op))
  {
    hide TrimSpace, Trimmed, Size, Adds, Appended;
    var r := NewRow(cfg, op.id, Asker(op), TrimSpace(op.justification), op.now);
    var e := Event(RequestCreated, op.actor, r, "pending elevation request", op.breakGlass);
    if Creates(s, op) {
      AddsIf(s, e, op.c.audit);
      assert Said(cfg, s, op) == if op.c.audit then iset{e} else iset{};
    } else {
      AddsNothing(s.log);
      assert Said(cfg, s, op) == iset{};
    }
  }

  lemma GrantSays(cfg: Config, s: State, op: Op)
    requires Keyed(s) && op.ApproveOp? && Approves(s, op)
    ensures Adds(s.log, Grant(cfg, s, s.reqs[op.id], op.actor, TrimSpace(op.text), op.now, op.breakGlass, op.c).state.log, Said(cfg, s, op))
  {
    hide TrimSpace, Trimmed, Size, Adds, Appended;
    var r, notes := s.reqs[op.id], TrimSpace(op.text);
    var e := Event(RequestApproved, op.actor, r, "notes: " + notes, op.breakGlass);
    var a := Event(GrantActive, op.actor, r, "user added to " + cfg.activeGroup, op.breakGlass);
    var s1 := Logged(s, e, op.c.audit);
    AddsIf(s, e, op.c.audit);
    AddsIf(s1, a, op.c.audit2);
    AddsThen(s.log, s1.log, Logged(s1, a, op.c.audit2).log, if op.c.audit then iset{e} else iset{}, if op.c.audit2 then iset{a} else iset{});
    assert Said(cfg, s, op) == (if op.c.audit then iset{e} else iset{}) + (if op.c.audit2 then iset{a} else iset{});
  }

  lemma LateSays(cfg: Config, s: State, op: Op)
    requires Keyed(s) && op.ApproveOp? && ExpiresLate(s, op)
    ensures Adds(s.log, ExpireLate(cfg, s, s.reqs[op.id], op.c).log, Said(cfg, s, op))
  {
    hide TrimSpace, Trimmed, Size, Adds, Appended;
    var r := s.reqs[op.id];
    var e := Event(RequestExpired, "system", r, "expired before approve", false);
    AddsIf(s, e, op.c.audit);
    assert Said(cfg, s, op) == if op.c.audit then iset{e} else iset{};
  }

  lemma ApproveSays(cfg: Config, s: State, op: Op)
    requires Keyed(s) && op.ApproveOp?
    ensures Adds(s.log, Step(cfg, s, op).log, Said(cfg, s, op))
  {
    hide TrimSpace, Trimmed, Size, Adds, Step, Late, ExpireLate;
    ApproveCases(cfg, s, op);
    if Approves(s, op) {
      hide Grant;
      GrantSays(cfg, s, op);
    } else if ExpiresLate(s, op) {
      LateSays(cfg, s, op);
    } else {
      AddsNothing(s.log);
      assert Said(cfg, s, op) == iset{};
    }
  }

  lemma ReleaseSays(cfg: Config, s: State, op: Op)
    requires Keyed(s) && op.ReleaseOp?
    ensures Adds(s.log, Step(cfg, s, op).log, Said(cfg, s, op))
  {
    hide Adds, Appended;
    if Releases(s, op) {
      var e := Event(EarlyRelease, if op.actor == "" then "system" else op.actor, s.reqs[op.id], "removed from " + cfg.activeGroup, false);
      AddsIf(s, e, op.c.audit);
      assert Said(cfg, s, op) == if op.c.audit then iset{e} else iset{};
    } else {
      AddsNothing(s.log);
      assert Said(cfg, s, op) == iset{};
    }
  }

  lemma SessionSays(cfg: Config, s: State, op: Op)
    requires op.SessionOp?
    ensures Adds(s.log, Step(cfg, s, op).log, Said(cfg, s, op))
  {
    hide Adds, Appended;
    if op.actor != "" && op.breakGlass {
      AddsIf(s, SessionEvent(op.actor), op.audit);
      assert Said(cfg, s, op) == if op.audit then iset{SessionEvent(op.actor)} else iset{};
    } else {
      AddsNothing(s.log);
      assert Said(cfg, s, op) == iset{};
    }
  }

  // ----- a pass -----

  ghost function LapsesSaid(batch: seq<Request>, row: string -> Calls): iset<AuditEvent> {
    iset r | r in batch && row(r.id).write && row(r.id).audit :: Event(RequestExpired, "system", r, "request TTL elapsed", false)
  }

  ghost function EndsSaid(batch: seq<Request>, row: string -> Calls): iset<AuditEvent> {
    iset r | r in batch && row(r.id).group == Done && row(r.id).write && row(r.id).audit ::
      Event(GrantExpired, "system", r, "active TTL elapsed; revoked", false)
  }

  lemma SaidOfLast(batch: seq<Request>, row: string -> Calls)
    requires batch != [] && forall i, j :: 0 <= i < j < |batch| ==> batch[i].id != batch[j].id
    ensures var init, last := batch[..|batch| - 1], batch[|batch| - 1]; var c := row(last.id);
            var lapse, end := Event(RequestExpired, "system", last, "request TTL elapsed", false),
                              Event(GrantExpired, "system", last, "active TTL elapsed; revoked", false);
            && LapsesSaid(batch, row) == LapsesSaid(init, row) + (if c.write && c.audit then iset{lapse} else iset{})
            && EndsSaid(batch, row) == EndsSaid(init, row) + (if c.group == Done && c.write && c.audit then iset{end} else iset{})
            && lapse !in LapsesSaid(init, row) && end !in EndsSaid(init, row)
  {
    assert batch == batch[..|batch| - 1] + [batch[|batch| - 1]];
  }

  lemma {:induction false} ExpireAllSays(cfg: Config, s: State, batch: seq<Request>, row: string -> Calls)
    requires Held(s.reqs, batch)
    ensures Adds(s.log, ExpireAll(cfg, s, batch, row).log, LapsesSaid(batch, row))
  {
    hide Adds, Appended, Held, LapsesSaid, Event;
    if batch == [] {
      AddsNothing(s.log);
      assert LapsesSaid(batch, row) == iset{} by { NothingSaid(row); }
    } else {
      var init, last := batch[..|batch| - 1], batch[|batch| - 1];
      var s1 := ExpireAll(cfg, s, init, row);
      InitHeld(s.reqs, batch);
      ExpireAllSays(cfg, s, init, row);
      HeldDiffer(s.reqs, batch);
      SaidOfLast(batch, row);
      var e := Event(RequestExpired, "system", last, "request TTL elapsed", false);
      EventIsNew(RequestExpired, "system", last, "request TTL elapsed", false);
      AddsIf(s1, e, row(last.id).audit);
      AddsNothing(s1.log);
      var more := if row(last.id).write && row(last.id).audit then iset{e} else iset{};
      AddsThen(s.log, s1.log, ExpireAll(cfg, s, batch, row).log, LapsesSaid(init, row), more);
    }
  }

  lemma HeldDiffer(reqs: map<string, Request>, batch: seq<Request>)
    requires Held(reqs, batch)
    ensures forall i, j :: 0 <= i < j < |batch| ==> batch[i].id != batch[j].id
  {}

  lemma EventIsNew(action: Action, actor: string, r: Request, detail: string, breakGlass: bool)
    ensures Event(action, actor, r, detail, breakGlass).id == 0
  {}

  lemma NothingSaid(row: string -> Calls)
    ensures LapsesSaid([], row) == iset{} && EndsSaid([], row) == iset{}
  {}

  lemma {:induction false} RevokeAllSays(cfg: Config, s: State, batch: seq<Request>, row: string -> Calls)
    requires Held(s.reqs, batch)
    ensures Adds(s.log, RevokeAll(cfg, s, batch, row).log, EndsSaid(batch, row))
  {
    hide Adds, Appended, Held, EndsSaid, Event;
    if batch == [] {
      AddsNothing(s.log);
      assert EndsSaid(batch, row) == iset{} by { NothingSaid(row); }
    } else {
      var init, last := batch[..|batch| - 1], batch[|batch| - 1];
      var s1 := RevokeAll(cfg, s, init, row);
      InitHeld(s.reqs, batch);
      RevokeAllSays(cfg, s, init, row);
      HeldDiffer(s.reqs, batch);
      SaidOfLast(batch, row);
      var e := Event(GrantExpired, "system", last, "active TTL elapsed; revoked", false);
      EventIsNew(GrantExpired, "system", last, "active TTL elapsed; revoked", false);
      AddsIf(s1, e, row(last.id).audit);
      AddsNothing(s1.log);
      var more := if row(last.id).group == Done && row(last.id).write && row(last.id).audit then iset{e} else iset{};
      AddsThen(s.log, s1.log, RevokeAll(cfg, s, batch, row).log, EndsSaid(init, row), more);
    }
  }

  // What is said in the first loop: of the requests the pass lets lapse.
  lemma LapsesSaidExactly(s: State, p: Pass, batch: seq<Request>, e: AuditEvent)
    requires Keyed(s) && p.query
    requires forall r :: r in batch <==> r.id in s.reqs && s.reqs[r.id] == r && PendingOverdue(r, p.now)
    ensures e in LapsesSaid(batch, p.row) <==>
            && e.id == 0 && e.action == RequestExpired && BySystem(e) && e.requestId in s.reqs && About(e, s.reqs[e.requestId])
            && Lapses(s, p, e.requestId) && p.row(e.requestId).audit && e.detail == "request TTL elapsed"
  {
    hide PendingOverdue;
    if e.requestId in s.reqs {
      var r := s.reqs[e.requestId];
      assert r in batch <==> PendingOverdue(r, p.now);
    }
  }

  lemma EndsSaidExactly(s: State, p: Pass, batch: seq<Request>, e: AuditEvent)
    requires Keyed(s) && p.query && p.query2
    requires forall r :: r in batch <==> r.id in s.reqs && s.reqs[r.id] == r && ActiveOverdue(r, p.now)
    ensures e in EndsSaid(batch, p.row) <==>
            && e.id == 0 && e.action == GrantExpired && BySystem(e) && RunsOut(s, p, e.requestId) && About(e, s.reqs[e.requestId])
            && p.row(e.requestId).audit && e.detail == "active TTL elapsed; revoked"
  {
    hide ActiveOverdue;
    if e.requestId in s.reqs {
      var r := s.reqs[e.requestId];
      assert r in batch <==> ActiveOverdue(r, p.now);
    }
  }

  // The first loop leaves the grants the second one will find.
  lemma SameGrantsDue(cfg: Config, s: State, p: Pass)
    requires Keyed(s) && PassFits(s, p) && p.query
    ensures var s1 := ExpireAll(cfg, s, PendingBatch(s, p), p.row);
            && PassFits(s1, p) && Keyed(s1)
            && forall id :: RunsOut(s1, p, id) <==> RunsOut(s, p, id)
    ensures var s1 := ExpireAll(cfg, s, PendingBatch(s, p), p.row);
            forall id :: RunsOut(s, p, id) ==> s1.reqs[id] == s.reqs[id]
  {
    hide Due, ExpireAll, Select;
    ExpirePhase(cfg, s, p);
  }

  lemma SaidByPass(cfg: Config, s: State, p: Pass, e: AuditEvent)
    ensures e in Said(cfg, s, ReconcileOp(p)) <==>
            && e.id == 0 && BySystem(e) && e.requestId in s.reqs && About(e, s.reqs[e.requestId]) && p.row(e.requestId).audit
            && (|| (e.action == RequestExpired && Lapses(s, p, e.requestId) && e.detail == "request TTL elapsed")
                || (e.action == GrantExpired && RunsOut(s, p, e.requestId) && e.detail == "active TTL elapsed; revoked"))
  {
    hide PendingOverdue, ActiveOverdue;
  }

  lemma PassSays(cfg: Config, s: State, p: Pass)
    requires Keyed(s) && PassFits(s, p)
    ensures Adds(s.log, Reconcile(cfg, s, p).log, Said(cfg, s, ReconcileOp(p)))
  {
    hide Adds, ExpireAll, RevokeAll, Select, Matches, LapsesSaid, EndsSaid, Held, Said, About, BySystem;
    AddsNothing(s.log);
    forall e ensures e in Said(cfg, s, ReconcileOp(p)) <==>
                       && e.id == 0 && BySystem(e) && e.requestId in s.reqs && About(e, s.reqs[e.requestId]) && p.row(e.requestId).audit
                       && (|| (e.action == RequestExpired && Lapses(s, p, e.requestId) && e.detail == "request TTL elapsed")
                           || (e.action == GrantExpired && RunsOut(s, p, e.requestId) && e.detail == "active TTL elapsed; revoked"))
    {
      SaidByPass(cfg, s, p, e);
    }
    if !p.query {
      assert Said(cfg, s, ReconcileOp(p)) == iset{};
    } else {
      var batch := PendingBatch(s, p);
      var s1 := ExpireAll(cfg, s, batch, p.row);
      BatchExact(s, p.plan, Pending, RequestExpiresAt, p.now);
      ExpireAllSays(cfg, s, batch, p.row);
      forall e ensures e in LapsesSaid(batch, p.row) <==>
                         && e.id == 0 && e.action == RequestExpired && BySystem(e) && e.requestId in s.reqs && About(e, s.reqs[e.requestId])
                         && Lapses(s, p, e.requestId) && p.row(e.requestId).audit && e.detail == "request TTL elapsed"
      {
        LapsesSaidExactly(s, p, batch, e);
      }
      if !p.query2 {
        assert Said(cfg, s, ReconcileOp(p)) == LapsesSaid(batch, p.row);
      } else {
        SameGrantsDue(cfg, s, p);
        var batch2 := ActiveBatch(s1, p);
        BatchExact(s1, p.plan2, Approved, ActiveExpiresAt, p.now);
        RevokeAllSays(cfg, s1, batch2, p.row);
        forall e ensures e in EndsSaid(batch2, p.row) <==>
                           && e.id == 0 && e.action == GrantExpired && BySystem(e) && RunsOut(s, p, e.requestId) && About(e, s.reqs[e.requestId])
                           && p.row(e.requestId).audit && e.detail == "active TTL elapsed; revoked"
        {
          EndsSaidExactly(s1, p, batch2, e);
        }
        AddsThen(s.log, s1.log, Reconcile(cfg, s, p).log, LapsesSaid(batch, p.row), EndsSaid(batch2, p.row));
        assert Said(cfg, s, ReconcileOp(p)) == LapsesSaid(batch, p.row) + EndsSaid(batch2, p.row);
      }
    }
  }

  // An operation, whatever fails, adds to the log exactly the events it causes, each once.
  lemma StepSays(cfg: Config, s: State, clock: Instant, op: Op)
    requires Keyed(s) && Admissible(cfg, s, clock, op)
    ensures Adds(s.log, Step(cfg, s, op).log, Said(cfg, s, op))
  {
    hide Adds, Said;
    match op
    case CreateOp(_, _, _, _, _, _, _, _) =>
      hide Step;
      CreateSays(cfg, s, op);
    case ApproveOp(_, _, _, _, _, _, _) =>
      hide Step;
      ApproveSays(cfg, s, op);
    case ReleaseOp(_, _, _, _) =>
      hide Step;
      ReleaseSays(cfg, s, op);
    case ReconcileOp(pass) =>
      hide Reconcile;
      PassSays(cfg, s, pass);
    case SessionOp(_, _, _) =>
      hide Step;
      SessionSays(cfg, s, op);
  }

  // ----- the events of a run -----

  // The state after the first `k` operations.
  function StateAt(cfg: Config, s: State, clock: Instant, ops: seq<Op>, k: nat): State
    requires k <= |ops|
  {
    Run(cfg, s, clock, ops[..k])
  }

  lemma NextState(cfg: Config, s: State, clock: Instant, ops: seq<Op>, k: nat)
    requires Shaped(cfg, clock, s) && IsRun(cfg, s, clock, ops) && k < |ops|
    ensures StateAt(cfg, s, clock, ops, k + 1) == Step(cfg, StateAt(cfg, s, clock, ops, k), ops[k])
    ensures Shaped(cfg, EndOf(clock, ops[..k]), StateAt(cfg, s, clock, ops, k))
    ensures Admissible(cfg, StateAt(cfg, s, clock, ops, k), EndOf(clock, ops[..k]), ops[k])
  {
    hide Run, IsRun, EndOf, Step, Admissible, Shaped;
    assert ops[..k + 1] == ops[..k] + [ops[k]];
    PrefixIsRun(cfg, s, clock, ops, k);
    PrefixIsRun(cfg, s, clock, ops, k + 1);
    RunKeepsShape(cfg, s, clock, ops[..k]);
    RunSnoc(cfg, s, clock, ops[..k], ops[k]);
  }

  lemma {:induction false} LogGrows(cfg: Config, s: State, clock: Instant, ops: seq<Op>, k: nat)
    requires Shaped(cfg, clock, s) && IsRun(cfg, s, clock, ops) && k <= |ops|
    ensures StateAt(cfg, s, clock, ops, k).log <= Run(cfg, s, clock, ops).log
    decreases |ops| - k
  {
    hide Run, IsRun, Step, Admissible, Shaped, EndOf, Said;
    if k == |ops| {
      assert ops[..k] == ops;
    } else {
      NextState(cfg, s, clock, ops, k);
      ShapedIsKeyed(cfg, EndOf(clock, ops[..k]), StateAt(cfg, s, clock, ops, k));
      StepSays(cfg, StateAt(cfg, s, clock, ops, k), EndOf(clock, ops[..k]), ops[k]);
      LogGrows(cfg, s, clock, ops, k + 1);
    }
  }

  // Over any run, whatever fails, the log holds operation by operation exactly the events each of
  // them causes, and what is logged stays.
  lemma RunSays(cfg: Config, s: State, clock: Instant, ops: seq<Op>, k: nat)
    requires Shaped(cfg, clock, s) && IsRun(cfg, s, clock, ops) && k < |ops|
    ensures var before, after := StateAt(cfg, s, clock, ops, k), StateAt(cfg, s, clock, ops, k + 1);
            Adds(before.log, after.log, Said(cfg, before, ops[k])) && after.log <= Run(cfg, s, clock, ops).log
  {
    hide Run, IsRun, Step, Admissible, Shaped, EndOf, Said, Adds;
    NextState(cfg, s, clock, ops, k);
    ShapedIsKeyed(cfg, EndOf(clock, ops[..k]), StateAt(cfg, s, clock, ops, k));
    StepSays(cfg, StateAt(cfg, s, clock, ops, k), EndOf(clock, ops[..k]), ops[k]);
    LogGrows(cfg, s, clock, ops, k + 1);
  }

  predicate CausedAt(cfg: Config, start: Instant, ops: seq<Op>, k: nat, e: AuditEvent) {
    k < |ops| && Causes(cfg, StateAt(cfg, EMPTY, start, ops, k), ops[k], e)
  }

  // An event is in the log of a run from an empty table if and only if an operation of the run caused it.
  lemma LogExactly(cfg: Config, start: Instant, ops: seq<Op>, e: AuditEvent)
    requires IsRun(cfg, EMPTY, start, ops) && e.id == 0
    ensures (exists i :: 0 <= i < |Run(cfg, EMPTY, start, ops).log| && Unstamped(Run(cfg, EMPTY, start, ops).log[i]) == e)
            <==> exists k :: CausedAt(cfg, start, ops, k, e)
  {
    hide Run, IsRun, Causes, Unstamped;
    var log := Run(cfg, EMPTY, start, ops).log;
    if i :| 0 <= i < |log| && Unstamped(log[i]) == e {
      var k := Speaker(cfg, start, ops, i);
      assert CausedAt(cfg, start, ops, k, e);
    }
    if k: nat :| CausedAt(cfg, start, ops, k, e) {
      RunSays(cfg, EMPTY, start, ops, k);
      var before, after := StateAt(cfg, EMPTY, start, ops, k), StateAt(cfg, EMPTY, start, ops, k + 1);
      assert e in Said(cfg, before, ops[k]);
      var i :| |before.log| <= i < |after.log| && Unstamped(after.log[i]) == e;
      assert Unstamped(log[i]) == e;
    }
  }

  // The operation that caused event `i`.
  lemma Speaker(cfg: Config, start: Instant, ops: seq<Op>, i: nat) returns (k: nat)
    requires IsRun(cfg, EMPTY, start, ops) && i < |Run(cfg, EMPTY, start, ops).log|
    ensures k < |ops| && Causes(cfg, StateAt(cfg, EMPTY, start, ops, k), ops[k], Unstamped(Run(cfg, EMPTY, start, ops).log[i]))
    ensures Run(cfg, EMPTY, start, ops).log[i].id == i + 1
    ensures |StateAt(cfg, EMPTY, start, ops, k).log| <= i < |StateAt(cfg, EMPTY, start, ops, k + 1).log|
  {
    hide Run, IsRun, Causes, Unstamped;
    var log := Run(cfg, EMPTY, start, ops).log;
    assert ops[..|ops|] == ops;
    NothingLogged(cfg, start, ops);
    k := |ops|;
    while |StateAt(cfg, EMPTY, start, ops, k).log| > i
      invariant k <= |ops| && (k < |ops| ==> |StateAt(cfg, EMPTY, start, ops, k + 1).log| > i)
      invariant k == |ops| ==> |StateAt(cfg, EMPTY, start, ops, k).log| > i
      decreases k
    {
      k := k - 1;
    }
    RunSays(cfg, EMPTY, start, ops, k);
    var after := StateAt(cfg, EMPTY, start, ops, k + 1);
    assert after.log[i] == log[i];
    assert Unstamped(log[i]) in Said(cfg, StateAt(cfg, EMPTY, start, ops, k), ops[k]);
  }

  lemma NothingLogged(cfg: Config, start: Instant, ops: seq<Op>)
    ensures StateAt(cfg, EMPTY, start, ops, 0) == EMPTY
  {
    assert ops[..0] == [];
  }

  // ----- every event against the row it is about -----

  // The operation behind the event, and what both have to do with the row as it is in the end.
  predicate Vouched(op: Op, e: AuditEvent, r: Request) {
    match e.action
    case RequestCreated =>
      && op.CreateOp? && op.id == r.id && op.eligible == Yes && op.now == r.createdAt
      && e.actor == op.actor && e.actor in {"", r.username} && e.breakGlass == op.breakGlass
    case RequestApproved => ApprovedHere(op, e, r) && e.detail == "notes: " + r.approvalNotes
    case GrantActive => ApprovedHere(op, e, r)
    case RequestExpired =>
      && BySystem(e)
      && (|| (op.ApproveOp? && op.id == r.id && op.now > r.requestExpiresAt)
          || (op.ReconcileOp? && r.status == Expired && r.requestExpiresAt < op.pass.now + SECOND))
    case EarlyRelease =>
      && op.ReleaseOp? && op.id == r.id && r.status == Released && r.releasedAt == Some(op.c.at)
      && e.actor == (if op.actor == "" then "system" else op.actor) && !e.breakGlass
      && (op.actor in {"", r.username} || op.permanent == Yes)
    case GrantExpired =>
      && BySystem(e) && op.ReconcileOp? && r.status == Released && r.releasedAt == Some(op.pass.row(r.id).at)
      && r.activeExpiresAt.Some? && r.activeExpiresAt.value < op.pass.now + SECOND
    case BreakGlassSession => false
  }

  predicate ApprovedHere(op: Op, e: AuditEvent, r: Request) {
    && op.ApproveOp? && op.id == r.id && op.permanent == Yes && WasGranted(r)
    && e.actor == op.actor && e.actor == r.approvedBy && r.approvedAt == Some(op.now) && e.breakGlass == op.breakGlass
  }

  // Right after the operation the event and the row agree.
  lemma VouchedAtOnce(cfg: Config, s: State, clock: Instant, op: Op, e: AuditEvent)
    requires Shaped(cfg, clock, s) && Admissible(cfg, s, clock, op)
    requires Causes(cfg, s, op, e) && e.action != BreakGlassSession
    ensures var s' := Step(cfg, s, op);
            e.requestId in s'.reqs && About(e, s'.reqs[e.requestId]) && Vouched(op, e, s'.reqs[e.requestId])
  {
    hide Step, TrimSpace, Trimmed, Size, Due, Storable;
    ShapedIsKeyed(cfg, clock, s);
    match op
    case CreateOp(_, _, _, _, _, _, _, _) => CreateRows(cfg, s, op);
    case ApproveOp(_, _, _, _, _, _, _) => ApproveRows(cfg, s, op);
    case ReleaseOp(_, _, _, _) => ReleaseRows(cfg, s, op);
    case ReconcileOp(pass) =>
      var r := s.reqs[e.requestId];
      assert WellShaped(cfg, clock, r.id, r);
      PassVouches(cfg, s, pass, e);
  }

  lemma PassVouches(cfg: Config, s: State, p: Pass, e: AuditEvent)
    requires Keyed(s) && PassFits(s, p) && InRange(p.now) && e.requestId in s.reqs && BySystem(e)
    requires About(e, s.reqs[e.requestId])
    requires (e.action == RequestExpired && Lapses(s, p, e.requestId)) || (e.action == GrantExpired && RunsOut(s, p, e.requestId))
    ensures var s' := Step(cfg, s, ReconcileOp(p));
            e.requestId in s'.reqs && About(e, s'.reqs[e.requestId]) && Vouched(ReconcileOp(p), e, s'.reqs[e.requestId])
  {
    hide Due, Reconcile;
    ReconcileExact(cfg, s, p);
    var r := s.reqs[e.requestId];
    if e.action == RequestExpired {
      DueIsPast(r.requestExpiresAt, p.now);
    } else {
      DueIsPast(r.activeExpiresAt.value, p.now);
    }
  }

  lemma DueIsPast(d: Instant, now: Instant)
    requires Due(d, now)
    ensures d < now + SECOND
  {
    if now + SECOND <= d {
      DueOutsideOneSecond(d, now);
    }
  }

  // What was agreed stays so.
  lemma VouchedForGood(op: Op, e: AuditEvent, r: Request, r': Request)
    requires About(e, r) && Vouched(op, e, r) && SameIdentity(r, r')
    requires WasGranted(r) ==> WasGranted(r') && SameGrant(r, r')
    requires r.status in {Expired, Released} ==> r' == r
    ensures About(e, r') && Vouched(op, e, r')
  {}

  // Every event of the log, in every run from an empty table whatever fails, names the user and the
  // justification of its row and whoever did it: an approval the approver on record, who was in the
  // permanent group when asked, with the notes on record; an early release the one who asked for it; and
  // what the system did is put down to the system.
  lemma EventsAreVouched(cfg: Config, start: Instant, ops: seq<Op>, i: nat) returns (k: nat)
    requires IsRun(cfg, EMPTY, start, ops) && i < |Run(cfg, EMPTY, start, ops).log|
    ensures var s := Run(cfg, EMPTY, start, ops); var e := s.log[i];
            && e.id == i + 1 && k < |ops|
            && if e.action == BreakGlassSession
               then ops[k].SessionOp? && ops[k].breakGlass && ops[k].actor == e.actor != "" && e.subject == e.actor && e.breakGlass && e.requestId == ""
               else e.requestId in s.reqs && About(e, s.reqs[e.requestId]) && Vouched(ops[k], e, s.reqs[e.requestId])
  {
    hide Run, IsRun, Step, Shaped, EndOf, Vouched, Admissible, WellShaped;
    var s := Run(cfg, EMPTY, start, ops);
    var e := Unstamped(s.log[i]);
    k := Speaker(cfg, start, ops, i);
    var before, after, clock := StateAt(cfg, EMPTY, start, ops, k), StateAt(cfg, EMPTY, start, ops, k + 1), EndOf(start, ops[..k]);
    assert Shaped(cfg, start, EMPTY) by { NothingIsShaped(cfg, start); }
    NextState(cfg, EMPTY, start, ops, k);
    if e.action != BreakGlassSession {
      hide Causes;
      VouchedAtOnce(cfg, before, clock, ops[k], e);
      RowFromThen(cfg, start, ops, k + 1, e.requestId);
      VouchedForGood(ops[k], e, after.reqs[e.requestId], s.reqs[e.requestId]);
      SameVoucher(ops[k], e, i + 1, s.reqs[e.requestId]);
    }
  }

  lemma SameVoucher(op: Op, e: AuditEvent, id: nat, r: Request)
    ensures Vouched(op, e.(id := id), r) <==> Vouched(op, e, r)
    ensures About(e.(id := id), r) <==> About(e, r)
  {}

  lemma NothingIsShaped(cfg: Config, start: Instant)
    ensures Shaped(cfg, start, EMPTY)
  {}

  // A row as it is after `k` operations, and as it is in the end.
  lemma RowFromThen(cfg: Config, start: Instant, ops: seq<Op>, k: nat, id: string)
    requires IsRun(cfg, EMPTY, start, ops) && k <= |ops| && id in StateAt(cfg, EMPTY, start, ops, k).reqs
    ensures var r, s := StateAt(cfg, EMPTY, start, ops, k).reqs[id], Run(cfg, EMPTY, start, ops);
            && id in s.reqs && SameIdentity(r, s.reqs[id])
            && (WasGranted(r) ==> WasGranted(s.reqs[id]) && SameGrant(r, s.reqs[id]))
            && (r.status in {Expired, Released} ==> s.reqs[id] == r)
  {
    hide Run, IsRun, Shaped, EndOf, Step;
    NothingIsShaped(cfg, start);
    var a, b := ops[..k], ops[k..];
    assert a + b == ops;
    RunJoined(cfg, EMPTY, start, a, b);
    PrefixIsRun(cfg, EMPTY, start, ops, k);
    RunKeepsShape(cfg, EMPTY, start, a);
    RunRefinesLifecycle(cfg, Run(cfg, EMPTY, start, a), EndOf(start, a), b, id);
  }

  // ----- every row against the operations of the run -----

  // The operation that made the request, by its user or on behalf of nobody else, in the words given.
  predicate AskedBy(op: Op, r: Request) {
    && op.CreateOp? && op.id == r.id && op.eligible == Yes && op.now == r.createdAt
    && op.actor in {"", r.username} && r.username == (if TrimSpace(op.username) == "" then op.actor else TrimSpace(op.username))
    && r.justification == TrimSpace(op.justification) && Size(r.justification) >= 8
  }

  // The operation that ended it, and when.
  predicate EndedBy(op: Op, r: Request) {
    if r.status == Expired then
      || (op.ApproveOp? && op.id == r.id && op.now > r.requestExpiresAt)
      || (op.ReconcileOp? && r.requestExpiresAt < op.pass.now + SECOND)
    else
      && r.status == Released
      && (|| (op.ReleaseOp? && op.id == r.id && r.releasedAt == Some(op.c.at) && (op.actor in {"", r.username} || op.permanent == Yes))
          || (op.ReconcileOp? && r.releasedAt == Some(op.pass.row(r.id).at)
              && r.activeExpiresAt.Some? && r.activeExpiresAt.value < op.pass.now + SECOND))
  }

  lemma StepOrigins(cfg: Config, s: State, clock: Instant, op: Op, id: string)
    requires Shaped(cfg, clock, s) && Admissible(cfg, s, clock, op) && id in Step(cfg, s, op).reqs
    ensures var r := Step(cfg, s, op).reqs[id];
            && (AskedBy(op, r) || (id in s.reqs && SameIdentity(s.reqs[id], r)))
            && (r.status in {Expired, Released} ==> EndedBy(op, r) || (id in s.reqs && s.reqs[id] == r))
  {
    hide Step, TrimSpace, Trimmed, Size, Due, Storable;
    ShapedIsKeyed(cfg, clock, s);
    match op
    case CreateOp(_, _, _, _, _, _, _, _) => CreateRows(cfg, s, op);
    case ApproveOp(_, _, _, _, _, _, _) => ApproveRows(cfg, s, op);
    case ReleaseOp(_, _, _, _) => ReleaseRows(cfg, s, op);
    case ReconcileOp(pass) =>
      SameKeys(cfg, s, op);
      PassOrigins(cfg, s, pass, id);
    case SessionOp(_, _, _) => SessionRows(cfg, s, op);
  }

  lemma PassOrigins(cfg: Config, s: State, p: Pass, id: string)
    requires Keyed(s) && PassFits(s, p) && id in s.reqs
    ensures Step(cfg, s, ReconcileOp(p)).reqs.Keys == s.reqs.Keys
    ensures var r := Step(cfg, s, ReconcileOp(p)).reqs[id];
            && SameIdentity(s.reqs[id], r)
            && (r.status in {Expired, Released} ==> EndedBy(ReconcileOp(p), r) || s.reqs[id] == r)
  {
    hide Due, Reconcile;
    ReconcileExact(cfg, s, p);
    var r := s.reqs[id];
    if PendingOverdue(r, p.now) {
      DueIsPast(r.requestExpiresAt, p.now);
    } else if ActiveOverdue(r, p.now) {
      DueIsPast(r.activeExpiresAt.value, p.now);
    }
  }

  // Every row of a run from an empty table was made by an operation of it, in the words of whoever asked;
  // approved, if it was, by another; and ended, if it was, by a third, at the time on record.
  lemma {:induction false} RowsHaveOrigins(cfg: Config, start: Instant, ops: seq<Op>, id: string)
    requires IsRun(cfg, EMPTY, start, ops) && id in Run(cfg, EMPTY, start, ops).reqs
    ensures var r := Run(cfg, EMPTY, start, ops).reqs[id];
            && (exists k :: 0 <= k < |ops| && AskedBy(ops[k], r))
            && (WasGranted(r) ==> exists k :: 0 <= k < |ops| && GrantedBy(ops[k], r))
            && (r.status in {Expired, Released} ==> exists k :: 0 <= k < |ops| && EndedBy(ops[k], r))
    decreases |ops|
  {
    hide Run, IsRun, Step, Shaped, EndOf, AskedBy, EndedBy, GrantedBy, Admissible, WellShaped;
    assert ops[..|ops|] == ops && ops[..0] == [];
    NothingIsShaped(cfg, start);
    if ops == [] {
      NothingLogged(cfg, start, ops);
    } else {
      var k := |ops| - 1;
      var init := ops[..k];
      var s, s' := Run(cfg, EMPTY, start, init), Run(cfg, EMPTY, start, ops);
      NextState(cfg, EMPTY, start, ops, k);
      PrefixIsRun(cfg, EMPTY, start, ops, k);
      StepOrigins(cfg, s, EndOf(start, init), ops[k], id);
      if WasGranted(s'.reqs[id]) {
        ReachableRows(cfg, start, ops, id);
      }
      if id in s.reqs {
        RowsHaveOrigins(cfg, start, init, id);
        if k0 :| 0 <= k0 < |init| && AskedBy(init[k0], s.reqs[id]) {
          SameAsker(ops[k0], s.reqs[id], s'.reqs[id]);
          assert AskedBy(ops[k0], s'.reqs[id]) || AskedBy(ops[k], s'.reqs[id]);
        }
      }
    }
  }

  lemma SameAsker(op: Op, r: Request, r': Request)
    ensures SameIdentity(r, r') ==> (AskedBy(op, r) <==> AskedBy(op, r'))
  {}
}
