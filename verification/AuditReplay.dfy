/** The audit log as a history: replaying it gives back the status of every request. */
module AuditReplay {
  import opened Text
  import opened Wrappers
  import opened Timestamp
  import opened Deadlines
  import opened Requests
  import opened Storage
  import opened AuditView
  import opened Protocol
  import opened Sweep
  import opened Runs
  import opened Lifecycle

  function ReplayOne(m: map<string, Status>, e: AuditEvent): map<string, Status> {
    match e.action
    case RequestCreated => m[e.requestId := Pending]
    case RequestApproved => m[e.requestId := Approved]
    case RequestExpired => m[e.requestId := Expired]
    case EarlyRelease => m[e.requestId := Released]
    case GrantExpired => m[e.requestId := Released]
    case GrantActive => m
    case BreakGlassSession => m
  }

  function Replay(log: seq<AuditEvent>): map<string, Status> {
    if log == [] then map[] else ReplayOne(Replay(log[..|log| - 1]), log[|log| - 1])
  }

  function Statuses(reqs: map<string, Request>): map<string, Status> {
    map id | id in reqs :: reqs[id].status
  }

  predicate Answers(e: AuditEvent, a: AuditEvent) {
    a.action == GrantActive && a.requestId == e.requestId && a.actor == e.actor && a.subject == e.subject
  }

  // Each approval is immediately followed by its grant, and each grant immediately preceded by its approval.
  predicate Paired(log: seq<AuditEvent>) {
    forall i :: 0 <= i < |log| ==> PairedAt(log, i)
  }

  predicate PairedAt(log: seq<AuditEvent>, i: nat)
    requires i < |log|
  {
    && (log[i].action == RequestApproved ==> i + 1 < |log| && Answers(log[i], log[i + 1]))
    && (log[i].action == GrantActive ==> 0 < i && log[i - 1].action == RequestApproved && Answers(log[i - 1], log[i]))
  }

  predicate Faithful(s: State) {
    Replay(s.log) == Statuses(s.reqs) && Paired(s.log) && Numbered(s.log)
  }

  lemma ReplayAppended(log: seq<AuditEvent>, e: AuditEvent)
    ensures Replay(Appended(log, e)) == ReplayOne(Replay(log), e)
    ensures Numbered(log) ==> Numbered(Appended(log, e))
  {
    assert Appended(log, e)[..|log|] == log;
  }

  lemma PairedAppended(log: seq<AuditEvent>, e: AuditEvent)
    requires Paired(log) && e.action != RequestApproved && e.action != GrantActive
    ensures Paired(Appended(log, e))
  {
    forall i | 0 <= i < |log| ensures PairedAt(Appended(log, e), i) {
      assert PairedAt(log, i);
    }
  }

  lemma PairedAppendedPair(log: seq<AuditEvent>, e: AuditEvent, a: AuditEvent)
    requires Paired(log) && e.action == RequestApproved && Answers(e, a)
    ensures Paired(Appended(Appended(log, e), a))
  {
    forall i | 0 <= i < |log| ensures PairedAt(Appended(Appended(log, e), a), i) {
      assert PairedAt(log, i);
    }
  }

  // ----- one row and its events -----

  // A row changes status, and its event is logged or not.
  lemma RecordedWrite(s: State, s': State, r: Request, e: AuditEvent, up: bool)
    requires Faithful(s) && e.action != RequestApproved && e.action != GrantActive
    requires StatusOf(s, r.id) != Some(r.status)
    requires s'.reqs == s.reqs[r.id := r] && s'.log == if up then Appended(s.log, e) else s.log
    requires ReplayOne(Replay(s.log), e) == Replay(s.log)[r.id := r.status]
    ensures Faithful(s') <==> up
  {
    hide Paired, Numbered, Replay, Appended;
    ReplayAppended(s.log, e);
    PairedAppended(s.log, e);
    assert r.id in Statuses(s'.reqs) && Statuses(s'.reqs)[r.id] == r.status;
  }

  // An event that changes the replay is logged although no row changed.
  lemma RecordedNothing(s: State, s': State, id: string, status: Status, e: AuditEvent)
    requires Faithful(s) && StatusOf(s, id) != Some(status)
    requires s'.reqs == s.reqs && s'.log == Appended(s.log, e)
    requires ReplayOne(Replay(s.log), e) == Replay(s.log)[id := status]
    ensures !Faithful(s')
  {
    hide Paired, Numbered, Replay, Appended;
    ReplayAppended(s.log, e);
    assert id in Replay(s'.log) && Replay(s'.log)[id] == status;
  }

  lemma SameIsFaithful(s: State, s': State)
    requires Faithful(s) && s'.reqs == s.reqs && s'.log == s.log
    ensures Faithful(s')
  {}

  // A row is approved, and each of its two events is logged or not.
  lemma RecordedGrant(s: State, s': State, r: Request, e: AuditEvent, a: AuditEvent, up: bool, up2: bool)
    requires Faithful(s) && e.action == RequestApproved && Answers(e, a) && e.requestId == r.id && r.status == Approved
    requires StatusOf(s, r.id) != Some(Approved) && s'.reqs == s.reqs[r.id := r]
    requires var log := if up then Appended(s.log, e) else s.log;
             s'.log == if up2 then Appended(log, a) else log
    ensures Faithful(s') <==> up && up2
  {
    hide Numbered, Replay;
    ReplayAppended(s.log, e);
    ReplayAppended(s.log, a);
    ReplayAppended(Appended(s.log, e), a);
    if up && up2 {
      PairedAppendedPair(s.log, e, a);
    } else if up {
      assert !PairedAt(s'.log, |s.log|);
    } else {
      assert r.id in Statuses(s'.reqs) && Statuses(s'.reqs)[r.id] == Approved;
      assert Replay(s'.log) == Replay(s.log);
    }
  }

  // ----- when an operation is recorded -----

  // The events of what the operation does to the table, and no others, are logged.
  predicate Recorded(s: State, op: Op) {
    match op
    case CreateOp(_, _, _, _, _, _, _, c) => Creates(s, op) ==> c.audit
    case ApproveOp(_, _, _, _, _, _, c) =>
      && (Approves(s, op) ==> c.audit && c.audit2)
      && (ExpiresLate(s, op) ==> c.write == c.audit)
    case ReleaseOp(_, _, _, c) => Releases(s, op) ==> c.audit
    case ReconcileOp(pass) => PassRecorded(s, pass)
    case SessionOp(_, _, _) => true
  }

  predicate PassRecorded(s: State, p: Pass) {
    forall id :: id in s.reqs && RowSucceeds(s.reqs[id], p) ==> p.row(id).audit
  }

  lemma CreateIsFaithful(cfg: Config, s: State, op: Op)
    requires Faithful(s) && op.CreateOp? && op.id !in s.reqs
    ensures Faithful(Step(cfg, s, op)) <==> Recorded(s, op)
  {
    hide Step, Appended, Faithful, TrimSpace, Trimmed, Size, Asker;
    CreateRows(cfg, s, op);
    CreateLog(cfg, s, op);
    var s' := Step(cfg, s, op);
    if Creates(s, op) {
      var r := s'.reqs[op.id];
      RecordedWrite(s, s', r, Event(RequestCreated, op.actor, r, "pending elevation request", op.breakGlass), op.c.audit);
    } else {
      SameIsFaithful(s, s');
    }
  }

  lemma CreateLog(cfg: Config, s: State, op: Op)
    requires op.CreateOp?
    ensures Step(cfg, s, op).log ==
            if Creates(s, op) && op.c.audit
            then Appended(s.log, Event(RequestCreated, op.actor, NewRow(cfg, op.id, Asker(op), TrimSpace(op.justification), op.now),
                                       "pending elevation request", op.breakGlass))
            else s.log
  {
    hide Appended, TrimSpace, Trimmed, Size;
  }

  // The late branch writes and logs independently of each other: the log stays true exactly when
  // both succeed or both fail.
  lemma LateIsFaithful(cfg: Config, s: State, r: Request, c: Calls)
    requires Faithful(s) && r.id in s.reqs && s.reqs[r.id] == r && r.status == Pending
    ensures Faithful(ExpireLate(cfg, s, r, c)) <==> c.write == c.audit
  {
    hide Appended, Faithful;
    var s' := ExpireLate(cfg, s, r, c);
    var e := Event(RequestExpired, "system", r, "expired before approve", false);
    if c.write {
      RecordedWrite(s, s', ExpiredRow(r), e, c.audit);
    } else if c.audit {
      RecordedNothing(s, s', r.id, Expired, e);
    } else {
      SameIsFaithful(s, s');
    }
  }

  lemma GrantIsFaithful(cfg: Config, s: State, r: Request, actor: string, notes: string, now: Instant, breakGlass: bool, c: Calls)
    requires Faithful(s) && r.id in s.reqs && s.reqs[r.id] == r && r.status == Pending
    ensures Faithful(Grant(cfg, s, r, actor, notes, now, breakGlass, c).state) <==>
            (c.group == Done && c.write ==> c.audit && c.audit2)
  {
    hide Appended, Faithful;
    var s' := Grant(cfg, s, r, actor, notes, now, breakGlass, c).state;
    if c.group == Done && c.write {
      RecordedGrant(s, s', ApprovedRow(cfg, r, now, actor, notes),
                    Event(RequestApproved, actor, r, "notes: " + notes, breakGlass), Event(GrantActive, actor, r, "user added to " + cfg.activeGroup, breakGlass), c.audit, c.audit2);
    } else {
      SameIsFaithful(s, s');
    }
  }

  lemma ApproveIsFaithful(cfg: Config, s: State, op: Op)
    requires Faithful(s) && op.ApproveOp? && Keyed(s)
    ensures Faithful(Step(cfg, s, op)) <==> Recorded(s, op)
  {
    hide Step, TrimSpace, Trimmed, Size, Late, Faithful, Grant, ExpireLate;
    ApproveCases(cfg, s, op);
    if Cleared(s, op) {
      LateIsFaithful(cfg, s, s.reqs[op.id], op.c);
      GrantIsFaithful(cfg, s, s.reqs[op.id], op.actor, TrimSpace(op.text), op.now, op.breakGlass, op.c);
    }
  }

  lemma EndIsFaithful(cfg: Config, s: State, r: Request, actor: string, action: Action, detail: string, c: Calls)
    requires Faithful(s) && action in {EarlyRelease, GrantExpired}
    requires r.id in s.reqs && s.reqs[r.id] == r && r.status == Approved
    ensures Faithful(EndGrant(cfg, s, r, actor, action, detail, c)) <==> (c.group == Done && c.write ==> c.audit)
  {
    hide Appended, Faithful;
    var s' := EndGrant(cfg, s, r, actor, action, detail, c);
    if Ends(s, r, c) {
      RecordedWrite(s, s', ReleasedRow(r, c.at), Event(action, actor, r, detail, false), c.audit);
    } else {
      SameIsFaithful(s, s');
    }
  }

  lemma ReleaseIsFaithful(cfg: Config, s: State, op: Op)
    requires Faithful(s) && op.ReleaseOp? && Keyed(s)
    ensures Faithful(Step(cfg, s, op)) <==> Recorded(s, op)
  {
    hide Faithful, EndGrant;
    if ReachesRemoval(s, op) {
      EndIsFaithful(cfg, s, s.reqs[op.id], if op.actor == "" then "system" else op.actor, EarlyRelease, "removed from " + cfg.activeGroup, op.c);
    }
  }

  lemma SessionIsFaithful(cfg: Config, s: State, actor: string, breakGlass: bool, audit: bool)
    requires Faithful(s)
    ensures Faithful(Session(s, actor, breakGlass, audit))
  {
    hide Paired, Numbered, Replay, Appended;
    ReplayAppended(s.log, SessionEvent(actor));
    PairedAppended(s.log, SessionEvent(actor));
  }

  // ----- a pass, row by row -----

  // The replay after: the ids in `ids` have moved to `status`, and nothing else has.
  predicate MovedTo(m: map<string, Status>, m': map<string, Status>, ids: set<string>, status: Status) {
    m'.Keys == m.Keys && forall id :: id in m ==> m'[id] == if id in ids then status else m[id]
  }

  predicate Tidy(log: seq<AuditEvent>) {
    Paired(log) && Numbered(log)
  }

  function ExpiredIds(batch: seq<Request>, row: string -> Calls): set<string> {
    set r | r in batch && row(r.id).write && row(r.id).audit :: r.id
  }

  function ReleasedIds(batch: seq<Request>, row: string -> Calls): set<string> {
    set r | r in batch && row(r.id).group == Done && row(r.id).write && row(r.id).audit :: r.id
  }

  lemma LastId(batch: seq<Request>, row: string -> Calls)
    requires batch != []
    ensures var init, last := batch[..|batch| - 1], batch[|batch| - 1];
            && ExpiredIds(batch, row) == ExpiredIds(init, row) + (if row(last.id).write && row(last.id).audit then {last.id} else {})
            && ReleasedIds(batch, row) ==
               ReleasedIds(init, row) + (if row(last.id).group == Done && row(last.id).write && row(last.id).audit then {last.id} else {})
  {
    assert batch == batch[..|batch| - 1] + [batch[|batch| - 1]];
  }

  // One more event of a pass.
  lemma MovedOne(m: map<string, Status>, log: seq<AuditEvent>, ids: set<string>, status: Status, e: AuditEvent)
    requires Tidy(log) && MovedTo(m, Replay(log), ids, status) && e.requestId in m
    requires (e.action == RequestExpired && status == Expired) || (e.action == GrantExpired && status == Released)
    ensures Tidy(Appended(log, e)) && MovedTo(m, Replay(Appended(log, e)), ids + {e.requestId}, status)
  {
    hide Paired, Numbered, Replay, Appended;
    ReplayAppended(log, e);
    PairedAppended(log, e);
  }

  lemma {:induction false} ExpireAllReplay(cfg: Config, s: State, batch: seq<Request>, row: string -> Calls)
    requires Tidy(s.log) && forall r :: r in batch ==> r.id in s.reqs && r.id in Replay(s.log)
    ensures var s' := ExpireAll(cfg, s, batch, row);
            Tidy(s'.log) && MovedTo(Replay(s.log), Replay(s'.log), ExpiredIds(batch, row), Expired)
  {
    hide Tidy, MovedTo, Replay, Appended, ExpiredIds;
    if batch == [] {
      NothingMoved(Replay(s.log), row);
    } else {
      var init, last := batch[..|batch| - 1], batch[|batch| - 1];
      var s1 := ExpireAll(cfg, s, init, row);
      ExpireAllReplay(cfg, s, init, row);
      LastId(batch, row);
      assert ExpiredIds(init, row) + {} == ExpiredIds(init, row);
      MovedOne(Replay(s.log), s1.log, ExpiredIds(init, row), Expired, Event(RequestExpired, "system", last, "request TTL elapsed", false));
    }
  }

  lemma NothingMoved(m: map<string, Status>, row: string -> Calls)
    ensures MovedTo(m, m, ExpiredIds([], row), Expired) && MovedTo(m, m, ReleasedIds([], row), Released)
  {}

  lemma {:induction false} RevokeAllReplay(cfg: Config, s: State, batch: seq<Request>, row: string -> Calls)
    requires Tidy(s.log) && forall r :: r in batch ==> r.id in s.reqs && r.id in Replay(s.log)
    ensures var s' := RevokeAll(cfg, s, batch, row);
            Tidy(s'.log) && MovedTo(Replay(s.log), Replay(s'.log), ReleasedIds(batch, row), Released)
  {
    hide Tidy, MovedTo, Replay, Appended, ReleasedIds;
    if batch == [] {
      NothingMoved(Replay(s.log), row);
    } else {
      var init, last := batch[..|batch| - 1], batch[|batch| - 1];
      var s1 := RevokeAll(cfg, s, init, row);
      RevokeAllReplay(cfg, s, init, row);
      LastId(batch, row);
      assert ReleasedIds(init, row) + {} == ReleasedIds(init, row);
      MovedOne(Replay(s.log), s1.log, ReleasedIds(init, row), Released, Event(GrantExpired, "system", last, "active TTL elapsed; revoked", false));
    }
  }

  lemma LoggedInFirst(s: State, p: Pass, id: string)
    requires Keyed(s) && PassFits(s, p) && id in s.reqs
    ensures id in ExpiredIds(PendingBatch(s, p), p.row) <==> PendingOverdue(s.reqs[id], p.now) && p.row(id).write && p.row(id).audit
    ensures forall r :: r in PendingBatch(s, p) ==> r.id in s.reqs
  {
    hide Select, Ids, Matches;
    BatchExact(s, p.plan, Pending, RequestExpiresAt, p.now);
    assert s.reqs[id] in PendingBatch(s, p) <==> PendingOverdue(s.reqs[id], p.now);
  }

  lemma LoggedInSecond(s: State, p: Pass, id: string)
    requires Keyed(s) && PassFits(s, p) && id in s.reqs
    ensures id in ReleasedIds(ActiveBatch(s, p), p.row) <==>
            ActiveOverdue(s.reqs[id], p.now) && p.row(id).group == Done && p.row(id).write && p.row(id).audit
    ensures forall r :: r in ActiveBatch(s, p) ==> r.id in s.reqs
  {
    hide Select, Ids, Matches;
    BatchExact(s, p.plan2, Approved, ActiveExpiresAt, p.now);
    assert s.reqs[id] in ActiveBatch(s, p) <==> ActiveOverdue(s.reqs[id], p.now);
  }

  lemma FirstReplay(cfg: Config, s: State, p: Pass)
    requires Tidy(s.log) && Keyed(s) && PassFits(s, p) && Replay(s.log).Keys == s.reqs.Keys
    ensures var log := ExpireAll(cfg, s, PendingBatch(s, p), p.row).log;
            && Tidy(log) && Replay(log).Keys == s.reqs.Keys
            && forall id :: id in s.reqs ==>
                 Replay(log)[id] == if PendingOverdue(s.reqs[id], p.now) && p.row(id).write && p.row(id).audit then Expired else Replay(s.log)[id]
  {
    hide Replay, Tidy, ExpireAll, Select, PendingOverdue, ExpiredIds;
    forall id | id in s.reqs
      ensures id in ExpiredIds(PendingBatch(s, p), p.row) <==> PendingOverdue(s.reqs[id], p.now) && p.row(id).write && p.row(id).audit
      ensures forall r :: r in PendingBatch(s, p) ==> r.id in s.reqs
    {
      LoggedInFirst(s, p, id);
    }
    if PendingBatch(s, p) != [] {
      assert PlansFit(s, p);
      BatchExact(s, p.plan, Pending, RequestExpiresAt, p.now);
    }
    ExpireAllReplay(cfg, s, PendingBatch(s, p), p.row);
  }

  lemma SecondReplay(cfg: Config, s: State, p: Pass)
    requires Tidy(s.log) && Keyed(s) && PassFits(s, p) && Replay(s.log).Keys == s.reqs.Keys
    ensures var log := RevokeAll(cfg, s, ActiveBatch(s, p), p.row).log;
            && Tidy(log) && Replay(log).Keys == s.reqs.Keys
            && forall id :: id in s.reqs ==>
                 Replay(log)[id] == if ActiveOverdue(s.reqs[id], p.now) && p.row(id).group == Done && p.row(id).write && p.row(id).audit
                                    then Released else Replay(s.log)[id]
  {
    hide Replay, Tidy, RevokeAll, Select, ActiveOverdue, ReleasedIds;
    forall id | id in s.reqs
      ensures id in ReleasedIds(ActiveBatch(s, p), p.row) <==>
              ActiveOverdue(s.reqs[id], p.now) && p.row(id).group == Done && p.row(id).write && p.row(id).audit
      ensures forall r :: r in ActiveBatch(s, p) ==> r.id in s.reqs
    {
      LoggedInSecond(s, p, id);
    }
    if ActiveBatch(s, p) != [] {
      BatchExact(s, p.plan2, Approved, ActiveExpiresAt, p.now);
    }
    RevokeAllReplay(cfg, s, ActiveBatch(s, p), p.row);
  }

  // What replaying the log of a pass adds: the new status of every row that succeeded and was logged.
  lemma PassReplay(cfg: Config, s: State, p: Pass)
    requires Faithful(s) && Keyed(s) && PassFits(s, p)
    ensures var s' := Reconcile(cfg, s, p);
            && Tidy(s'.log) && Replay(s'.log).Keys == s.reqs.Keys
            && forall id :: id in s.reqs ==>
                 Replay(s'.log)[id] == if RowSucceeds(s.reqs[id], p) && p.row(id).audit then RowAfter(s.reqs[id], p).status else s.reqs[id].status
  {
    hide Replay, Paired, Numbered, ExpireAll, RevokeAll, Select, Due;
    if p.query {
      var s1 := ExpireAll(cfg, s, PendingBatch(s, p), p.row);
      FirstReplay(cfg, s, p);
      ExpirePhase(cfg, s, p);
      if p.query2 {
        SecondReplay(cfg, s1, p);
      }
    }
  }

  lemma PassIsFaithful(cfg: Config, s: State, p: Pass)
    requires Faithful(s) && Keyed(s) && PassFits(s, p)
    ensures Faithful(Reconcile(cfg, s, p)) <==> PassRecorded(s, p)
  {
    hide Reconcile, Replay, Paired, Numbered, RowSucceeds, RowAfter;
    var s' := Reconcile(cfg, s, p);
    PassReplay(cfg, s, p);
    ReconcileExact(cfg, s, p);
    forall id | id in s.reqs
      ensures Replay(s'.log)[id] == Statuses(s'.reqs)[id] <==> (RowSucceeds(s.reqs[id], p) ==> p.row(id).audit)
    {
      RowAfterStatus(s.reqs[id], p);
    }
    if PassRecorded(s, p) {
      assert Replay(s'.log) == Statuses(s'.reqs);
    }
  }

  // From a faithful log, an operation, whatever fails, leaves a faithful log if and only if it is recorded.
  lemma StepIsFaithful(cfg: Config, s: State, clock: Instant, op: Op)
    requires Faithful(s) && Keyed(s) && Admissible(cfg, s, clock, op)
    ensures Faithful(Step(cfg, s, op)) <==> Recorded(s, op)
  {
    hide Faithful, Creates, Approves, Releases, ExpiresLate, PassRecorded;
    match op
    case CreateOp(_, _, _, _, _, _, _, _) => CreateIsFaithful(cfg, s, op);
    case ApproveOp(_, _, _, _, _, _, _) => ApproveIsFaithful(cfg, s, op);
    case ReleaseOp(_, _, _, _) => ReleaseIsFaithful(cfg, s, op);
    case ReconcileOp(pass) =>
      hide Reconcile;
      PassIsFaithful(cfg, s, pass);
    case SessionOp(actor, breakGlass, audit) => SessionIsFaithful(cfg, s, actor, breakGlass, audit);
  }

  // ----- runs -----

  ghost predicate FaithfulThroughout(cfg: Config, s: State, ops: seq<Op>)
    decreases |ops|
  {
    Faithful(s) && (ops == [] || FaithfulThroughout(cfg, Step(cfg, s, ops[0]), ops[1..]))
  }

  ghost predicate RecordedThroughout(cfg: Config, s: State, ops: seq<Op>)
    decreases |ops|
  {
    ops == [] || (Recorded(s, ops[0]) && RecordedThroughout(cfg, Step(cfg, s, ops[0]), ops[1..]))
  }

  // A run, whatever fails in it, keeps the log a true history at all times if and only if every
  // operation of it is recorded.
  lemma {:induction false} RunIsFaithful(cfg: Config, s: State, clock: Instant, ops: seq<Op>)
    requires Faithful(s) && Keyed(s) && IsRun(cfg, s, clock, ops)
    ensures FaithfulThroughout(cfg, s, ops) <==> RecordedThroughout(cfg, s, ops)
    ensures RecordedThroughout(cfg, s, ops) ==> Faithful(Run(cfg, s, clock, ops))
    decreases |ops|
  {
    hide Step, When, Faithful, Recorded, Admissible;
    if ops != [] {
      var s1 := Step(cfg, s, ops[0]);
      StepIsFaithful(cfg, s, clock, ops[0]);
      StepKeepsKeys(cfg, s, clock, ops[0]);
      if Faithful(s1) {
        RunIsFaithful(cfg, s1, When(ops[0], clock), ops[1..]);
      }
    }
  }

  predicate Writes(c: Calls) {
    c.write && c.audit && c.audit2
  }

  ghost predicate StoreUp(op: Op) {
    match op
    case CreateOp(_, _, _, _, _, _, _, c) => Writes(c)
    case ApproveOp(_, _, _, _, _, _, c) => Writes(c)
    case ReleaseOp(_, _, _, c) => Writes(c)
    case ReconcileOp(pass) => forall id :: Writes(pass.row(id))
    case SessionOp(_, _, audit) => audit
  }

  // In particular when store writes succeed, however group calls fail.
  lemma {:induction false} StoreUpIsRecorded(cfg: Config, s: State, ops: seq<Op>)
    requires forall i :: 0 <= i < |ops| ==> StoreUp(ops[i])
    ensures RecordedThroughout(cfg, s, ops)
    decreases |ops|
  {
    hide Step, Creates, Approves, Releases, ExpiresLate, RowSucceeds;
    if ops != [] {
      var op := ops[0];
      assert StoreUp(op);
      assert op.ReconcileOp? ==> PassRecorded(s, op.pass) by {
        if op.ReconcileOp? {
          forall id | id in s.reqs && RowSucceeds(s.reqs[id], op.pass) ensures op.pass.row(id).audit {
            assert Writes(op.pass.row(id));
          }
        }
      }
      StoreUpIsRecorded(cfg, Step(cfg, s, op), ops[1..]);
    }
  }

  lemma StepKeepsKeys(cfg: Config, s: State, clock: Instant, op: Op)
    requires Keyed(s) && Admissible(cfg, s, clock, op)
    ensures Keyed(Step(cfg, s, op))
  {
    hide Step, Creates, Asker, TrimSpace, Trimmed, Approves, ExpiresLate, Releases;
    if op.ReconcileOp? {
      hide Admissible;
      assert PassFits(s, op.pass) by { hide *; AdmissiblePass(cfg, s, clock, op); }
      PassKeepsKeys(cfg, s, op);
    } else if op.CreateOp? {
      CreateRows(cfg, s, op);
    } else if op.ApproveOp? {
      hide Admissible;
      ApproveRows(cfg, s, op);
      OnlyKnown(s, op);
    } else if op.ReleaseOp? {
      hide Admissible;
      ReleaseRows(cfg, s, op);
      OnlyKnown(s, op);
    } else {
      SessionRows(cfg, s, op);
    }
  }

  lemma OnlyKnown(s: State, op: Op)
    ensures Approves(s, op) || ExpiresLate(s, op) ==> op.ApproveOp? && op.id in s.reqs
    ensures Releases(s, op) ==> op.ReleaseOp? && op.id in s.reqs
  {}

  lemma PassKeepsKeys(cfg: Config, s: State, op: Op)
    requires Keyed(s) && op.ReconcileOp? && PassFits(s, op.pass)
    ensures Keyed(Step(cfg, s, op))
  {
    hide Reconcile, RowAfter;
    ReconcileExact(cfg, s, op.pass);
    forall id | id in s.reqs ensures RowAfter(s.reqs[id], op.pass).id == id {
      RowAfterStatus(s.reqs[id], op.pass);
    }
  }
}
