/** The lifecycle of a request over whole runs, with any calls failing. */
module Lifecycle {
  import opened Wrappers
  import opened Text
  import opened Timestamp
  import opened Deadlines
  import opened Requests
  import opened Storage
  import opened AuditView
  import opened Protocol
  import opened Sweep
  import opened Runs

  // The allowed moves: pending to approved or expired, approved to released; nothing else changes a row.
  predicate Moves(r: Request, r': Request) {
    && SameIdentity(r, r')
    && match (r.status, r'.status)
       case (Pending, Approved) => true
       case (Pending, Expired) => r' == ExpiredRow(r)
       case (Approved, Released) => r'.releasedAt.Some? && r' == ReleasedRow(r, r'.releasedAt.value)
       case _ => r == r'
  }

  // Zero or more moves.
  predicate Leads(a: Status, b: Status) {
    a == b || (a == Pending && b in {Approved, Expired, Released}) || (a == Approved && b == Released)
  }

  predicate Untouched(r: Request) {
    r.approvedAt == None && r.approvedBy == "" && r.approvalNotes == "" && r.activeExpiresAt == None && r.releasedAt == None
  }

  predicate Granted(cfg: Config, r: Request) {
    && r.approvedAt.Some? && r.createdAt <= r.approvedAt.value <= r.requestExpiresAt
    && r.activeExpiresAt == Some(r.approvedAt.value + cfg.activeTTL)
    && Size(r.approvalNotes) >= 8 && r.approvedBy != ""
  }

  // What a row can look like at time `clock`.
  predicate WellShaped(cfg: Config, clock: Instant, id: string, r: Request) {
    && r.id == id && Storable(r) && r.createdAt <= clock
    && r.requestExpiresAt == r.createdAt + cfg.requestTTL
    && r.username != "" && Size(r.justification) >= 8
    && match r.status
       case Pending => Untouched(r)
       case Expired => Untouched(r)
       case Approved => Granted(cfg, r) && r.releasedAt == None
       case Released => Granted(cfg, r) && r.releasedAt.Some?
       case Denied => false
  }

  predicate Shaped(cfg: Config, clock: Instant, s: State) {
    forall id :: id in s.reqs ==> WellShaped(cfg, clock, id, s.reqs[id])
  }

  lemma ShapedIsKeyed(cfg: Config, clock: Instant, s: State)
    requires Shaped(cfg, clock, s)
    ensures Keyed(s)
  {}

  // Rows only appear and move.
  predicate Advances(s: State, s': State) {
    && s.reqs.Keys <= s'.reqs.Keys
    && forall id :: id in s.reqs ==> Moves(s.reqs[id], s'.reqs[id])
  }

  // ----- rows an operation writes -----

  function Asker(op: Op): string
    requires op.CreateOp?
  {
    if TrimSpace(op.username) == "" then op.actor else TrimSpace(op.username)
  }

  predicate Creates(s: State, op: Op) {
    && op.CreateOp? && Asker(op) != "" && Size(TrimSpace(op.justification)) >= 8
    && (op.actor == "" || op.actor == Asker(op)) && op.eligible == Yes
    && op.c.write && op.id !in s.reqs
  }

  lemma CreateRows(cfg: Config, s: State, op: Op)
    requires op.CreateOp?
    ensures Step(cfg, s, op).reqs ==
            if Creates(s, op) then s.reqs[op.id := NewRow(cfg, op.id, Asker(op), TrimSpace(op.justification), op.now)] else s.reqs
  {
    hide TrimSpace, Size, Appended;
  }

  // An approve gets past its guards to a pending request.
  predicate Cleared(s: State, op: Op) {
    && op.ApproveOp? && op.actor != "" && op.permanent == Yes && Size(TrimSpace(op.text)) >= 8
    && op.c.read && op.id in s.reqs && s.reqs[op.id].status == Pending
  }

  predicate ExpiresLate(s: State, op: Op) {
    Cleared(s, op) && Late(s.reqs[op.id].requestExpiresAt, op.now)
  }

  predicate ReachesGrant(s: State, op: Op) {
    Cleared(s, op) && !Late(s.reqs[op.id].requestExpiresAt, op.now)
  }

  predicate Approves(s: State, op: Op) {
    ReachesGrant(s, op) && op.c.group == Done && op.c.write
  }

  // What an approve does is up to which of the two it reaches.
  lemma ApproveCases(cfg: Config, s: State, op: Op)
    requires op.ApproveOp? && Keyed(s)
    ensures Step(cfg, s, op) ==
            if ReachesGrant(s, op) then Grant(cfg, s, s.reqs[op.id], op.actor, TrimSpace(op.text), op.now, op.breakGlass, op.c).state
            else if ExpiresLate(s, op) then ExpireLate(cfg, s, s.reqs[op.id], op.c)
            else s
  {
    hide TrimSpace, Size, Grant, ExpireLate;
  }

  lemma ApproveRows(cfg: Config, s: State, op: Op)
    requires op.ApproveOp? && Keyed(s)
    ensures Step(cfg, s, op).reqs ==
            if Approves(s, op) then s.reqs[op.id := ApprovedRow(cfg, s.reqs[op.id], op.now, op.actor, TrimSpace(op.text))]
            else if ExpiresLate(s, op) && op.c.write then s.reqs[op.id := ExpiredRow(s.reqs[op.id])]
            else s.reqs
  {
    hide TrimSpace, Trimmed, Size, Late, Step, Grant, ExpireLate;
    ApproveCases(cfg, s, op);
    if Cleared(s, op) {
      GrantRows(cfg, s, s.reqs[op.id], op.actor, TrimSpace(op.text), op.now, op.breakGlass, op.c);
      LateRows(cfg, s, s.reqs[op.id], op.c);
    }
  }

  lemma GrantRows(cfg: Config, s: State, r: Request, actor: string, notes: string, now: Instant, breakGlass: bool, c: Calls)
    requires r.id in s.reqs
    ensures Grant(cfg, s, r, actor, notes, now, breakGlass, c).state.reqs ==
            if c.group == Done && c.write then s.reqs[r.id := ApprovedRow(cfg, r, now, actor, notes)] else s.reqs
  {
    hide Appended;
  }

  lemma LateRows(cfg: Config, s: State, r: Request, c: Calls)
    requires r.id in s.reqs
    ensures ExpireLate(cfg, s, r, c).reqs == if c.write then s.reqs[r.id := ExpiredRow(r)] else s.reqs
    ensures ExpireLate(cfg, s, r, c).active == s.active
  {
    hide Appended;
  }

  // A release gets past its guards to an approved request.
  predicate ReachesRemoval(s: State, op: Op) {
    && op.ReleaseOp? && op.c.read && op.id in s.reqs && s.reqs[op.id].status == Approved
    && (op.actor == "" || op.actor == s.reqs[op.id].username || op.permanent == Yes)
  }

  predicate Releases(s: State, op: Op) {
    ReachesRemoval(s, op) && op.c.group == Done && op.c.write
  }

  lemma ReleaseCases(cfg: Config, s: State, op: Op)
    requires op.ReleaseOp? && Keyed(s)
    ensures Step(cfg, s, op) ==
            if ReachesRemoval(s, op)
            then EndGrant(cfg, s, s.reqs[op.id], if op.actor == "" then "system" else op.actor, EarlyRelease, "removed from " + cfg.activeGroup, op.c)
            else s
  {
    hide EndGrant;
  }

  lemma ReleaseRows(cfg: Config, s: State, op: Op)
    requires op.ReleaseOp? && Keyed(s)
    ensures Step(cfg, s, op).reqs ==
            if Releases(s, op) then s.reqs[op.id := ReleasedRow(s.reqs[op.id], op.c.at)] else s.reqs
  {
    hide Appended;
  }

  lemma SessionRows(cfg: Config, s: State, op: Op)
    requires op.SessionOp?
    ensures Step(cfg, s, op).reqs == s.reqs && Step(cfg, s, op).active == s.active
  {
    hide Appended;
  }

  // ----- answers -----

  function StatusOf(s: State, id: string): Option<Status> {
    if id in s.reqs then Some(s.reqs[id].status) else None
  }

  // The answer `created` is given exactly when the request is now there, and any other leaves
  // everything as it was and says why.
  predicate CreatedTruly(s: State, reply: Reply, op: Op)
    requires op.CreateOp?
  {
    var fit := Asker(op) != "" && Size(TrimSpace(op.justification)) >= 8;
    var allowed := op.actor in {"", Asker(op)};
    && (reply.outcome == Created <==> StatusOf(s, op.id) == None && StatusOf(reply.state, op.id) == Some(Pending))
    && (reply.outcome != Created ==> reply.state == s)
    && match reply.outcome
       case BadRequest => !fit
       case Forbidden => fit && (!allowed || op.eligible == No)
       case BadGateway => fit && allowed && op.eligible == Unavailable
       case InternalError => fit && allowed && op.eligible == Yes && (!op.c.write || op.id in s.reqs)
       case Created => fit && allowed && op.eligible == Yes && op.c.write
       case _ => false
  }

  lemma CreateAnswersTruly(cfg: Config, s: State, op: Op)
    requires op.CreateOp?
    ensures CreatedTruly(s, Create(cfg, s, op.actor, op.username, op.justification, op.eligible, op.id, op.now, op.breakGlass, op.c), op)
  {
    hide TrimSpace, Utf8, Appended;
    assert TrimSpace(op.justification) == "" ==> Size(TrimSpace(op.justification)) == 0;
  }

  // The answer `ok` is given exactly when the request went from pending to approved, and then its
  // user is a member. Only a late request, a lost group call or a failed row write leave a trace of
  // any other answer, and every answer says why.
  predicate ApprovedTruly(s: State, reply: Reply, op: Op)
    requires op.ApproveOp?
  {
    var before, after := StatusOf(s, op.id), StatusOf(reply.state, op.id);
    var entitled := op.actor != "" && op.permanent == Yes && Size(TrimSpace(op.text)) >= 8;
    var open := entitled && op.c.read && before == Some(Pending) && op.now <= s.reqs[op.id].requestExpiresAt;
    && (reply.outcome == Ok <==> before == Some(Pending) && after == Some(Approved))
    && (reply.outcome == Ok ==> s.reqs[op.id].username in reply.state.active)
    && (reply.outcome != Ok && reply.state != s ==>
          before == Some(Pending)
          && match reply.outcome
             case Conflict => op.now > s.reqs[op.id].requestExpiresAt && reply.state.active == s.active
             case BadGateway => reply.state == s.(active := s.active + {s.reqs[op.id].username}) && op.c.group == Lost
             case InternalError => reply.state == s.(active := s.active + {s.reqs[op.id].username}) && !op.c.write
             case _ => false)
    && match reply.outcome
       case Unauthorized => op.actor == ""
       case Forbidden => op.actor != "" && op.permanent == No
       case BadGateway => (op.actor != "" && op.permanent == Unavailable) || (open && op.c.group != Done)
       case BadRequest => op.actor != "" && op.permanent == Yes && Size(TrimSpace(op.text)) < 8
       case NotFound => entitled && (!op.c.read || before == None)
       case Conflict => entitled && op.c.read && before != None && !open
       case InternalError => open && op.c.group == Done && !op.c.write
       case Ok => open && op.c.group == Done && op.c.write
       case _ => false
  }

  lemma ApproveAnswersTruly(cfg: Config, s: State, op: Op)
    requires op.ApproveOp? && Keyed(s)
    ensures ApprovedTruly(s, Approve(cfg, s, op.actor, op.permanent, op.text, op.id, op.now, op.breakGlass, op.c), op)
  {
    hide TrimSpace, Trimmed, Size, Grant, ExpireLate;
    if op.id in s.reqs {
      GrantAnswers(cfg, s, s.reqs[op.id], op.actor, TrimSpace(op.text), op.now, op.breakGlass, op.c);
      LateRows(cfg, s, s.reqs[op.id], op.c);
    }
  }

  lemma GrantAnswers(cfg: Config, s: State, r: Request, actor: string, notes: string, now: Instant, breakGlass: bool, c: Calls)
    requires r.id in s.reqs
    ensures var reply := Grant(cfg, s, r, actor, notes, now, breakGlass, c);
            && reply.outcome == (if c.group != Done then BadGateway else if !c.write then InternalError else Ok)
            && (reply.outcome == BadGateway ==> reply.state == s.(active := AfterAdd(s.active, r.username, c.group)))
            && (reply.outcome == InternalError ==> reply.state == s.(active := s.active + {r.username}))
            && (reply.outcome == Ok ==>
                  r.id in reply.state.reqs && reply.state.reqs[r.id].status == Approved && r.username in reply.state.active)
  {
    hide Appended;
  }

  // The answer `ok` is given exactly when the request went from approved to released; of any other
  // only a member removed without the row being written can be left. Every answer says why.
  predicate ReleasedTruly(s: State, reply: Reply, op: Op)
    requires op.ReleaseOp?
  {
    var before, after := StatusOf(s, op.id), StatusOf(reply.state, op.id);
    var ending := op.c.read && before == Some(Approved);
    var asks := ending && op.actor !in {"", s.reqs[op.id].username};
    && (reply.outcome == Ok <==> before == Some(Approved) && after == Some(Released))
    && (reply.outcome == Ok ==> s.reqs[op.id].username !in reply.state.active)
    && (reply.outcome != Ok && reply.state != s ==>
          reply.outcome == BadGateway && before == Some(Approved)
          && reply.state == s.(active := s.active - {s.reqs[op.id].username}))
    && match reply.outcome
       case NotFound => !op.c.read || before == None
       case Conflict => op.c.read && before != None && before != Some(Approved)
       case Forbidden => asks && op.permanent == No
       case BadGateway => ending && if asks && op.permanent != Yes then op.permanent == Unavailable else op.c.group != Done || !op.c.write
       case Ok => ending && (asks ==> op.permanent == Yes) && op.c.group == Done && op.c.write
       case _ => false
  }

  lemma ReleaseAnswersTruly(cfg: Config, s: State, op: Op)
    requires op.ReleaseOp? && Keyed(s)
    ensures ReleasedTruly(s, Release(cfg, s, op.actor, op.permanent, op.id, op.c), op)
  {
    hide Appended;
  }

  // ----- steps -----

  lemma WriteAdvances(cfg: Config, clock: Instant, clock': Instant, s: State, s': State, r: Request)
    requires Shaped(cfg, clock, s) && clock <= clock'
    requires s'.reqs == s.reqs[r.id := r] && WellShaped(cfg, clock', r.id, r)
    requires r.id in s.reqs ==> Moves(s.reqs[r.id], r)
    ensures Advances(s, s') && Shaped(cfg, clock', s')
  {
    hide Storable, Granted, Untouched;
  }

  lemma SameRowsAdvance(cfg: Config, clock: Instant, clock': Instant, s: State, s': State)
    requires Shaped(cfg, clock, s) && clock <= clock' && s'.reqs == s.reqs
    ensures Advances(s, s') && Shaped(cfg, clock', s')
  {
    hide Storable, Granted, Untouched;
  }

  lemma StepAdvances(cfg: Config, s: State, clock: Instant, op: Op)
    requires Shaped(cfg, clock, s) && Admissible(cfg, s, clock, op)
    ensures Advances(s, Step(cfg, s, op))
    ensures Shaped(cfg, When(op, clock), Step(cfg, s, op))
  {
    match op
    case CreateOp(_, _, _, _, _, _, _, _) => CreateAdvances(cfg, s, clock, op);
    case ApproveOp(_, _, _, _, _, _, _) => ApproveAdvances(cfg, s, clock, op);
    case ReleaseOp(_, _, _, _) => ReleaseAdvances(cfg, s, clock, op);
    case ReconcileOp(pass) => PassAdvances(cfg, s, clock, pass);
    case SessionOp(_, _, _) =>
      hide Appended, Advances, Shaped;
      SameRowsAdvance(cfg, clock, clock, s, Step(cfg, s, op));
  }

  lemma CreateAdvances(cfg: Config, s: State, clock: Instant, op: Op)
    requires Shaped(cfg, clock, s) && Admissible(cfg, s, clock, op) && op.CreateOp?
    ensures Advances(s, Step(cfg, s, op)) && Shaped(cfg, op.now, Step(cfg, s, op))
  {
    hide Step, Advances, Shaped, TrimSpace, Trimmed, Size;
    CreateRows(cfg, s, op);
    var s' := Step(cfg, s, op);
    if s'.reqs == s.reqs {
      SameRowsAdvance(cfg, clock, op.now, s, s');
    } else {
      WriteAdvances(cfg, clock, op.now, s, s', s'.reqs[op.id]);
    }
  }

  lemma ApproveAdvances(cfg: Config, s: State, clock: Instant, op: Op)
    requires Shaped(cfg, clock, s) && Admissible(cfg, s, clock, op) && op.ApproveOp?
    ensures Advances(s, Step(cfg, s, op)) && Shaped(cfg, op.now, Step(cfg, s, op))
  {
    hide Step, Advances, TrimSpace, Size;
    ApproveRows(cfg, s, op);
    var s' := Step(cfg, s, op);
    if s'.reqs == s.reqs {
      SameRowsAdvance(cfg, clock, op.now, s, s');
    } else {
      assert WellShaped(cfg, clock, op.id, s.reqs[op.id]);
      hide Shaped;
      WriteAdvances(cfg, clock, op.now, s, s', s'.reqs[op.id]);
    }
  }

  lemma ReleaseAdvances(cfg: Config, s: State, clock: Instant, op: Op)
    requires Shaped(cfg, clock, s) && Admissible(cfg, s, clock, op) && op.ReleaseOp?
    ensures Advances(s, Step(cfg, s, op)) && Shaped(cfg, op.c.at, Step(cfg, s, op))
  {
    hide Step, Advances;
    ReleaseRows(cfg, s, op);
    var s' := Step(cfg, s, op);
    if s'.reqs == s.reqs {
      SameRowsAdvance(cfg, clock, op.c.at, s, s');
    } else {
      assert WellShaped(cfg, clock, op.id, s.reqs[op.id]);
      hide Shaped;
      WriteAdvances(cfg, clock, op.c.at, s, s', s'.reqs[op.id]);
    }
  }

  lemma PassAdvances(cfg: Config, s: State, clock: Instant, p: Pass)
    requires Shaped(cfg, clock, s) && Admissible(cfg, s, clock, ReconcileOp(p))
    ensures Advances(s, Reconcile(cfg, s, p)) && Shaped(cfg, p.now, Reconcile(cfg, s, p))
  {
    hide Reconcile, RowAfter;
    ReconcileExact(cfg, s, p);
    forall id | id in s.reqs
      ensures Moves(s.reqs[id], RowAfter(s.reqs[id], p)) && WellShaped(cfg, p.now, id, RowAfter(s.reqs[id], p))
    {
      PassKeepsShape(cfg, clock, id, s.reqs[id], p);
    }
  }

  lemma PassKeepsShape(cfg: Config, clock: Instant, id: string, r: Request, p: Pass)
    requires WellShaped(cfg, clock, id, r) && clock <= p.now && InRange(p.row(id).at)
    ensures Moves(r, RowAfter(r, p)) && WellShaped(cfg, p.now, id, RowAfter(r, p))
  {
    hide Due;
  }

  // ----- runs -----

  // Every row of every reachable table has the shape its status calls for.
  lemma {:induction false} RunKeepsShape(cfg: Config, s: State, clock: Instant, ops: seq<Op>)
    requires Shaped(cfg, clock, s) && IsRun(cfg, s, clock, ops)
    ensures Shaped(cfg, EndOf(clock, ops), Run(cfg, s, clock, ops)) && clock <= EndOf(clock, ops)
    decreases |ops|
  {
    hide Step, Shaped, When;
    if ops != [] {
      StepAdvances(cfg, s, clock, ops[0]);
      RunKeepsShape(cfg, Step(cfg, s, ops[0]), When(ops[0], clock), ops[1..]);
    }
  }

  // Over any run no row disappears, identity columns never change, and statuses only lead forward:
  // expired and released rows never change again.
  lemma {:induction false} RunRefinesLifecycle(cfg: Config, s: State, clock: Instant, ops: seq<Op>, id: string)
    requires Shaped(cfg, clock, s) && IsRun(cfg, s, clock, ops) && id in s.reqs
    ensures var r, s' := s.reqs[id], Run(cfg, s, clock, ops);
            && id in s'.reqs && SameIdentity(r, s'.reqs[id])
            && Leads(r.status, s'.reqs[id].status)
            && (r.status == s'.reqs[id].status || r.status in {Expired, Released} ==> s'.reqs[id] == r)
            && (WasGranted(r) ==> WasGranted(s'.reqs[id]) && SameGrant(r, s'.reqs[id]))
    decreases |ops|
  {
    hide Step, Shaped, When, Admissible;
    if ops != [] {
      var s1 := Step(cfg, s, ops[0]);
      StepAdvances(cfg, s, clock, ops[0]);
      assert Moves(s.reqs[id], s1.reqs[id]);
      RunRefinesLifecycle(cfg, s1, When(ops[0], clock), ops[1..], id);
    }
  }

  // ----- provenance -----

  // The operation that granted this row: an approver who answered as permanent, notes, and a time in the window.
  predicate GrantedBy(op: Op, r: Request) {
    && op.ApproveOp? && op.id == r.id && op.actor == r.approvedBy && op.permanent == Yes
    && TrimSpace(op.text) == r.approvalNotes && Some(op.now) == r.approvedAt
    && op.c.group == Done && op.c.write
  }

  predicate WasGranted(r: Request) {
    r.status == Approved || r.status == Released
  }

  lemma StepGrants(cfg: Config, s: State, clock: Instant, op: Op, id: string)
    requires Shaped(cfg, clock, s) && Admissible(cfg, s, clock, op)
    requires id in Step(cfg, s, op).reqs && WasGranted(Step(cfg, s, op).reqs[id])
    ensures GrantedBy(op, Step(cfg, s, op).reqs[id]) ||
            (id in s.reqs && WasGranted(s.reqs[id]) && SameGrant(s.reqs[id], Step(cfg, s, op).reqs[id]))
  {
    hide Step, Admissible, WellShaped, GrantedBy;
    ShapedIsKeyed(cfg, clock, s);
    if op.ApproveOp? {
      ApproveGrants(cfg, s, op, id);
    } else if op.CreateOp? {
      hide Creates, Asker, TrimSpace, Trimmed, Size, Shaped;
      CreateRows(cfg, s, op);
    } else {
      OthersGrant(cfg, s, clock, op, id);
    }
  }

  lemma OthersGrant(cfg: Config, s: State, clock: Instant, op: Op, id: string)
    requires Shaped(cfg, clock, s) && Admissible(cfg, s, clock, op) && !op.CreateOp? && !op.ApproveOp?
    requires id in Step(cfg, s, op).reqs && WasGranted(Step(cfg, s, op).reqs[id])
    ensures id in s.reqs && WasGranted(s.reqs[id]) && SameGrant(s.reqs[id], Step(cfg, s, op).reqs[id])
  {
    hide Step, WellShaped;
    ShapedIsKeyed(cfg, clock, s);
    StepAdvances(cfg, s, clock, op);
    SameKeys(cfg, s, op);
    assert Moves(s.reqs[id], Step(cfg, s, op).reqs[id]);
    NoApproval(cfg, s, op, id);
  }

  lemma ApproveGrants(cfg: Config, s: State, op: Op, id: string)
    requires Keyed(s) && op.ApproveOp? && id in Step(cfg, s, op).reqs && WasGranted(Step(cfg, s, op).reqs[id])
    ensures GrantedBy(op, Step(cfg, s, op).reqs[id]) ||
            (id in s.reqs && WasGranted(s.reqs[id]) && SameGrant(s.reqs[id], Step(cfg, s, op).reqs[id]))
  {
    hide Step, TrimSpace, Trimmed, Size, Late;
    ApproveRows(cfg, s, op);
  }

  lemma SameKeys(cfg: Config, s: State, op: Op)
    requires Keyed(s) && !op.CreateOp?
    ensures Step(cfg, s, op).reqs.Keys == s.reqs.Keys
  {
    if op.ApproveOp? {
      hide Step, TrimSpace, Trimmed, Size, Late;
      ApproveRows(cfg, s, op);
    } else if op.ReleaseOp? {
      hide Step;
      ReleaseRows(cfg, s, op);
    } else {
      hide Reconcile, Appended;
    }
  }

  lemma NoApproval(cfg: Config, s: State, op: Op, id: string)
    requires !op.CreateOp? && !op.ApproveOp? && Keyed(s) && id in s.reqs
    requires op.ReconcileOp? ==> PassFits(s, op.pass)
    ensures id in Step(cfg, s, op).reqs
    ensures s.reqs[id].status == Pending ==> Step(cfg, s, op).reqs[id].status != Approved
  {
    if op.ReleaseOp? {
      hide Step;
      ReleaseRows(cfg, s, op);
    } else if op.ReconcileOp? {
      hide Keyed, PassFits;
      PassApprovesNothing(cfg, s, op.pass, id);
    } else {
      hide Appended;
    }
  }

  lemma PassApprovesNothing(cfg: Config, s: State, p: Pass, id: string)
    requires Keyed(s) && PassFits(s, p) && id in s.reqs
    ensures PlansFit(s, p)
    ensures s.reqs[id].status == Pending ==> Reconcile(cfg, s, p).reqs[id].status != Approved
  {
    hide Reconcile, RowAfter, RowSucceeds, Overdue;
    ReconcileExact(cfg, s, p);
    RowAfterStatus(s.reqs[id], p);
  }

  predicate SameGrant(r: Request, q: Request) {
    r.id == q.id && r.approvedAt == q.approvedAt && r.approvedBy == q.approvedBy && r.approvalNotes == q.approvalNotes
  }

  // Every approved or released row of a run that starts from an empty table was granted by an
  // approve operation of that run, made by someone the permanent group answered for.
  lemma {:induction false} GrantsHaveApprovers(cfg: Config, s: State, clock: Instant, ops: seq<Op>, id: string)
    requires Shaped(cfg, clock, s) && IsRun(cfg, s, clock, ops)
    requires id in Run(cfg, s, clock, ops).reqs && WasGranted(Run(cfg, s, clock, ops).reqs[id])
    ensures var r := Run(cfg, s, clock, ops).reqs[id];
            (exists k :: 0 <= k < |ops| && GrantedBy(ops[k], r)) ||
            (id in s.reqs && WasGranted(s.reqs[id]) && SameGrant(s.reqs[id], r))
    decreases |ops|
  {
    hide Step, Shaped, When, Admissible, TrimSpace;
    if ops != [] {
      var s1, clock1, rest := Step(cfg, s, ops[0]), When(ops[0], clock), ops[1..];
      var r := Run(cfg, s, clock, ops).reqs[id];
      StepAdvances(cfg, s, clock, ops[0]);
      GrantsHaveApprovers(cfg, s1, clock1, rest, id);
      if k :| 0 <= k < |rest| && GrantedBy(rest[k], r) {
        assert GrantedBy(ops[k + 1], r);
      } else {
        StepGrants(cfg, s, clock, ops[0], id);
        assert GrantedBy(ops[0], s1.reqs[id]) ==> GrantedBy(ops[0], r);
      }
    }
  }

  // ----- the two deadline tests over runs -----

  // No granted row could have been expired by a pass a second or more before it was approved.
  lemma ApprovedWasNotExpirable(cfg: Config, s: State, clock: Instant, ops: seq<Op>, id: string, at: Instant, n: Instant)
    requires Shaped(cfg, clock, s) && IsRun(cfg, s, clock, ops)
    requires id in Run(cfg, s, clock, ops).reqs && WasGranted(Run(cfg, s, clock, ops).reqs[id])
    requires Run(cfg, s, clock, ops).reqs[id].approvedAt == Some(at) && InRange(n) && n + SECOND <= at
    ensures !Due(Run(cfg, s, clock, ops).reqs[id].requestExpiresAt, n)
  {
    var r := Run(cfg, s, clock, ops).reqs[id];
    RunKeepsShape(cfg, s, clock, ops);
    assert WellShaped(cfg, EndOf(clock, ops), id, r);
    DueOutsideOneSecond(r.requestExpiresAt, n);
  }

  // No row a pass expired at `n` could have been approved from one second later on.
  lemma ExpiredWasNotApprovable(cfg: Config, s: State, clock: Instant, p: Pass, id: string, t: Instant)
    requires Shaped(cfg, clock, s) && Admissible(cfg, s, clock, ReconcileOp(p)) && id in s.reqs
    requires s.reqs[id].status == Pending && Reconcile(cfg, s, p).reqs[id].status == Expired
    requires p.now + SECOND <= t
    ensures Late(s.reqs[id].requestExpiresAt, t)
  {
    hide Reconcile, Due;
    ReconcileExact(cfg, s, p);
    var d := s.reqs[id].requestExpiresAt;
    assert RowAfter(s.reqs[id], p).status == Expired;
    assert Due(d, p.now);
    assert WellShaped(cfg, clock, id, s.reqs[id]);
    DueOutsideOneSecond(d, p.now);
  }

  // ----- reachable tables -----

  // Every row reachable from an empty table: its shape, and the approve operation behind a grant.
  lemma ReachableRows(cfg: Config, clock: Instant, ops: seq<Op>, id: string)
    requires IsRun(cfg, EMPTY, clock, ops) && id in Run(cfg, EMPTY, clock, ops).reqs
    ensures var r := Run(cfg, EMPTY, clock, ops).reqs[id];
            && WellShaped(cfg, EndOf(clock, ops), id, r)
            && (WasGranted(r) ==> exists k :: 0 <= k < |ops| && GrantedBy(ops[k], r))
  {
    hide Run, IsRun, GrantedBy, WellShaped;
    RunKeepsShape(cfg, EMPTY, clock, ops);
    if WasGranted(Run(cfg, EMPTY, clock, ops).reqs[id]) {
      GrantsHaveApprovers(cfg, EMPTY, clock, ops, id);
    }
  }

  predicate AllStorable(reqs: map<string, Request>) {
    forall id :: id in reqs ==> Storable(reqs[id]) && reqs[id].id == id
  }

  // The rows a table of requests is stored as.
  function StoredRows(reqs: map<string, Request>): map<string, Row>
    requires AllStorable(reqs)
  {
    map id | id in reqs :: Insert(reqs[id])
  }

  // What is stored of a table reads back as that table.
  lemma StoredRowsExact(reqs: map<string, Request>)
    requires AllStorable(reqs)
    ensures Sound(StoredRows(reqs)) && Decoded(StoredRows(reqs)) == reqs
  {
    hide Insert, Scan, Storable;
    forall id | id in reqs ensures RowSound(id, StoredRows(reqs)[id]) && Scan(StoredRows(reqs)[id]) == Success(reqs[id]) {
      InsertIsSound(reqs[id]);
    }
  }

  // However a table was reached, neither expiry query fails on its stored rows, and the NOT NULL test
  // hides no grant: every deadline is there and reads back as the instant the handler computed.
  lemma NothingIsHidden(cfg: Config, start: Instant, ops: seq<Op>, plan: seq<string>, now: Instant)
    requires IsRun(cfg, EMPTY, start, ops) && Enumerates(plan, Run(cfg, EMPTY, start, ops).reqs.Keys) && InRange(now)
    ensures var reqs := Run(cfg, EMPTY, start, ops).reqs;
            && AllStorable(reqs)
            && var rows := StoredRows(reqs);
            && QueryRows(rows, plan, Pending, RequestExpiresAt, now) == Success(Select(reqs, plan, Pending, RequestExpiresAt, now))
            && QueryRows(rows, plan, Approved, ActiveExpiresAt, now) == Success(Select(reqs, plan, Approved, ActiveExpiresAt, now))
            && forall id :: id in reqs ==> DeadlinesReadBack(cfg, reqs[id], rows[id])
  {
    hide Run, IsRun, QueryRows, Select, Sound, Decoded, Insert, WellShaped, Storable, DeadlinesReadBack;
    var reqs := Run(cfg, EMPTY, start, ops).reqs;
    RunKeepsShape(cfg, EMPTY, start, ops);
    forall id | id in reqs ensures Storable(reqs[id]) && reqs[id].id == id {
      ShapeIsStorable(cfg, EndOf(start, ops), id, reqs[id]);
    }
    StoredRowsExact(reqs);
    QueryOfSound(StoredRows(reqs), plan, Pending, RequestExpiresAt, now);
    QueryOfSound(StoredRows(reqs), plan, Approved, ActiveExpiresAt, now);
    forall id | id in reqs ensures DeadlinesReadBack(cfg, reqs[id], StoredRows(reqs)[id]) {
      ShapeReadsBack(cfg, EndOf(start, ops), id, reqs[id]);
    }
  }

  lemma ShapeIsStorable(cfg: Config, clock: Instant, id: string, r: Request)
    requires WellShaped(cfg, clock, id, r)
    ensures Storable(r) && r.id == id
  {}

  predicate DeadlinesReadBack(cfg: Config, r: Request, row: Row) {
    && Parse(row.requestExpiresAt) == Some(r.createdAt + cfg.requestTTL)
    && (row.status in {Approved, Released} ==>
          row.activeExpiresAt.Some? && r.approvedAt.Some?
          && Parse(row.activeExpiresAt.value) == Some(r.approvedAt.value + cfg.activeTTL))
  }

  lemma ShapeReadsBack(cfg: Config, clock: Instant, id: string, r: Request)
    requires WellShaped(cfg, clock, id, r) && Storable(r)
    ensures DeadlinesReadBack(cfg, r, Insert(r))
  {
    hide Parse, Format;
    ParseOfFormat(r.requestExpiresAt);
    if r.activeExpiresAt.Some? {
      ParseOfFormat(r.activeExpiresAt.value);
    }
  }
}
