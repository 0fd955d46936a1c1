/** An operation's calls, its events and its notification, with nobody in between, are the atomic operation. */
module AtomicTurns {
  import opened Text
  import opened Timestamp
  import opened Deadlines
  import opened Requests
  import opened AuditView
  import opened Storage
  import opened Protocol
  import opened Sweep
  import opened Runs
  import opened Lifecycle
  import opened Interleaving
  import opened Atomicity
  import opened Chronicle

  // ----- duties -----

  // The log, the marks and the posts are as the atomic state has them.
  predicate Records(j: Journal, s: State) {
    j.log == s.log && j.marks == s.marks && j.posts == s.posts
  }

  function Discharges(cfg: Config, j: Journal, p: nat, ups: seq<bool>): Journal
    decreases |ups|
  {
    if ups == [] then j else Discharges(cfg, Turned(cfg, j, Discharge(p, ups[0])), p, ups[1..])
  }

  lemma NoticeIsAtomic(cfg: Config, s: State, j: Journal, p: nat, mark: Mark, up: bool)
    requires Records(j, s) && p in j.owed && j.owed[p] == [Tell(mark)]
    ensures var j' := Discharges(cfg, j, p, [up, true]);
            Records(j', Notified(cfg, s, mark, up)) && j'.w == j.w && j'.owed == j.owed[p := []]
  {
    var j1 := Turned(cfg, j, Discharge(p, up));
    assert [Send(mark)] + j.owed[p][1..] == [Send(mark)];
    assert [up, true][1..] == [true] && [true][1..] == [];
    assert Discharges(cfg, j1, p, [true]) == Discharges(cfg, Turned(cfg, j1, Discharge(p, true)), p, []);
  }

  // The duties of an expiry, of a release or of a creation, with nobody in between, are what the
  // atomic operation does about its event and its notification.
  lemma DutiesAreAtomic(cfg: Config, s: State, j: Journal, p: nat, e: AuditEvent, mark: Mark, c: Calls)
    requires Records(j, s) && p in j.owed && j.owed[p] == [Record(e), Tell(mark)]
    ensures var j' := Discharges(cfg, j, p, [c.audit, c.mark, true]);
            Records(j', Notified(cfg, Logged(s, e, c.audit), mark, c.mark)) && j'.w == j.w && j'.owed == j.owed[p := []]
  {
    hide Appended;
    var j1 := Turned(cfg, j, Discharge(p, c.audit));
    assert j.owed[p][1..] == [Tell(mark)];
    assert [c.audit, c.mark, true][1..] == [c.mark, true];
    NoticeIsAtomic(cfg, Logged(s, e, c.audit), j1, p, mark, c.mark);
  }

  // The same of an approve, with its two events.
  lemma GrantDutiesAreAtomic(cfg: Config, s: State, j: Journal, p: nat, r: Request, actor: string, notes: string, breakGlass: bool, c: Calls)
    requires var approved, active := Event(RequestApproved, actor, r, "notes: " + notes, breakGlass), Event(GrantActive, actor, r, "user added to " + cfg.activeGroup, breakGlass);
             Records(j, s) && p in j.owed && j.owed[p] == [Record(approved), Record(active), Tell(Mark(r.id, ApprovedRequester))]
    ensures var approved, active := Event(RequestApproved, actor, r, "notes: " + notes, breakGlass), Event(GrantActive, actor, r, "user added to " + cfg.activeGroup, breakGlass);
            var j' := Discharges(cfg, j, p, [c.audit, c.audit2, c.mark, true]);
            Records(j', Notified(cfg, Logged(Logged(s, approved, c.audit), active, c.audit2), Mark(r.id, ApprovedRequester), c.mark))
            && j'.w == j.w && j'.owed == j.owed[p := []]
  {
    hide Appended, Event;
    var approved, active := Event(RequestApproved, actor, r, "notes: " + notes, breakGlass), Event(GrantActive, actor, r, "user added to " + cfg.activeGroup, breakGlass);
    var mark := Mark(r.id, ApprovedRequester);
    var j1 := Turned(cfg, j, Discharge(p, c.audit));
    assert j.owed[p][1..] == [Record(active), Tell(mark)];
    assert [c.audit, c.audit2, c.mark, true][1..] == [c.audit2, c.mark, true];
    var d := c.(audit := c.audit2);
    DutiesAreAtomic(cfg, Logged(s, approved, c.audit), j1, p, active, mark, d);
  }

  // ----- calls and duties -----

  // The journal is as the atomic state has it, with `p` out of the way and done with its duties.
  predicate Mirrors(j: Journal, s: State, p: nat) {
    Agrees(j.w, s, p) && Records(j, s) && !Busy(j, p)
  }

  function Called(cfg: Config, j: Journal, m: Move, actor: string, breakGlass: bool): Journal {
    Turned(cfg, j, Act(m, actor, breakGlass))
  }

  // What a create does once its guards have passed.
  function CreateTurns(cfg: Config, j: Journal, p: nat, row: Request, op: Op): Journal
    requires op.CreateOp?
  {
    Discharges(cfg, Called(cfg, j, Insert(p, row), op.actor, op.breakGlass), p, [op.c.audit, op.c.mark, true])
  }

  lemma CreateIsItsTurns(cfg: Config, s: State, j: Journal, p: nat, op: Op)
    requires Mirrors(j, s, p) && Creates(s, op)
    ensures var s' := Step(cfg, s, op);
            op.id in s'.reqs && Mirrors(CreateTurns(cfg, j, p, s'.reqs[op.id], op), s', p)
            && CreateTurns(cfg, j, p, s'.reqs[op.id], op).w.procs == j.w.procs
  {
    hide TrimSpace, Trimmed, Size, Appended, Discharges;
    var s' := Step(cfg, s, op);
    CreateRows(cfg, s, op);
    var r := s'.reqs[op.id];
    var e := Event(RequestCreated, op.actor, r, "pending elevation request", op.breakGlass);
    var j1 := Called(cfg, j, Insert(p, r), op.actor, op.breakGlass);
    DutiesAreAtomic(cfg, s.(reqs := s'.reqs), j1, p, e, Mark(op.id, PendingApprovers), op.c);
  }

  // What an approve does once its guards have passed.
  function ApproveTurns(cfg: Config, j: Journal, p: nat, op: Op): Journal
    requires op.ApproveOp?
  {
    var j1 := Called(cfg, j, BeginApprove(p, op.id, op.now, op.actor, TrimSpace(op.text)), op.actor, op.breakGlass);
    if p in j1.w.procs && j1.w.procs[p].Expiring? then
      Discharges(cfg, Called(cfg, j1, Call(p, Wrote(op.c.write), op.now, []), op.actor, op.breakGlass), p, [op.c.audit, op.c.mark, true])
    else
      var j2 := Called(cfg, j1, Call(p, op.c.group, op.now, []), op.actor, op.breakGlass);
      var j3 := Called(cfg, j2, Call(p, Wrote(op.c.write), op.now, []), op.actor, op.breakGlass);
      Discharges(cfg, j3, p, [op.c.audit, op.c.audit2, op.c.mark, true])
  }

  lemma {:induction false} NothingOwed(cfg: Config, j: Journal, p: nat, ups: seq<bool>)
    requires !Busy(j, p)
    ensures Discharges(cfg, j, p, ups) == j
    decreases |ups|
  {
    if ups != [] {
      NothingOwed(cfg, j, p, ups[1..]);
    }
  }

  lemma LateIsItsTurns(cfg: Config, s: State, j: Journal, p: nat, op: Op)
    requires Keyed(s) && Mirrors(j, s, p) && ExpiresLate(s, op)
    ensures Mirrors(ApproveTurns(cfg, j, p, op), Step(cfg, s, op), p) && ApproveTurns(cfg, j, p, op).w.procs == j.w.procs
  {
    hide TrimSpace, Trimmed, Size, Appended, Discharges, Step;
    ApproveCases(cfg, s, op);
    var r := s.reqs[op.id];
    var e := Event(RequestExpired, "system", r, "expired before approve", false);
    var j1 := Called(cfg, j, BeginApprove(p, op.id, op.now, op.actor, TrimSpace(op.text)), op.actor, op.breakGlass);
    var j2 := Called(cfg, j1, Call(p, Wrote(op.c.write), op.now, []), op.actor, op.breakGlass);
    DutiesAreAtomic(cfg, Written(s, ExpiredRow(r), op.c.write), j2, p, e, Mark(op.id, ExpiredRequester), op.c);
  }

  lemma GrantIsItsTurns(cfg: Config, s: State, j: Journal, p: nat, op: Op)
    requires Keyed(s) && Mirrors(j, s, p) && ReachesGrant(s, op)
    ensures Mirrors(ApproveTurns(cfg, j, p, op), Step(cfg, s, op), p) && ApproveTurns(cfg, j, p, op).w.procs == j.w.procs
  {
    hide TrimSpace, Trimmed, Size, Appended, Discharges, Step;
    ApproveCases(cfg, s, op);
    var r, notes, c := s.reqs[op.id], TrimSpace(op.text), op.c;
    var j1 := Called(cfg, j, BeginApprove(p, op.id, op.now, op.actor, notes), op.actor, op.breakGlass);
    var j2 := Called(cfg, j1, Call(p, c.group, op.now, []), op.actor, op.breakGlass);
    var j3 := Called(cfg, j2, Call(p, Wrote(c.write), op.now, []), op.actor, op.breakGlass);
    if c.group == Done && c.write {
      var s1 := Written(s.(active := AfterAdd(s.active, r.username, c.group)), ApprovedRow(cfg, r, op.now, op.actor, notes), c.write);
      GrantDutiesAreAtomic(cfg, s1, j3, p, r, op.actor, notes, op.breakGlass, c);
    } else {
      NothingOwed(cfg, j3, p, [c.audit, c.audit2, c.mark, true]);
    }
  }

  // An approve that gets past its guards, with nobody in between, does to rows, membership, log, marks and
  // posts what the atomic one does.
  lemma ApproveIsItsTurns(cfg: Config, s: State, j: Journal, p: nat, op: Op)
    requires Keyed(s) && Mirrors(j, s, p) && (ReachesGrant(s, op) || ExpiresLate(s, op))
    ensures Mirrors(ApproveTurns(cfg, j, p, op), Step(cfg, s, op), p) && ApproveTurns(cfg, j, p, op).w.procs == j.w.procs
  {
    hide Mirrors, Step, ApproveTurns;
    if ReachesGrant(s, op) {
      GrantIsItsTurns(cfg, s, j, p, op);
    } else {
      LateIsItsTurns(cfg, s, j, p, op);
    }
  }

  // The second call that ends a grant, and its duties.
  lemma EndsAtomically(cfg: Config, s: State, j: Journal, p: nat, r: Request, actor: string, action: Action, detail: string, c: Calls)
    requires r.id in s.reqs && c.group == Done && c.write && Records(j, s)
    requires j.w.reqs == s.reqs[r.id := ReleasedRow(r, c.at)] && j.w.active == s.active - {r.username}
    requires p in j.owed && j.owed[p] == EndDuties(r, actor, action, detail)
    ensures var j', s' := Discharges(cfg, j, p, [c.audit, c.mark, true]), EndGrant(cfg, s, r, actor, action, detail, c);
            && Records(j', s') && j'.w == j.w && j'.w.reqs == s'.reqs && j'.w.active == s'.active && !Busy(j', p)
  {
    hide Appended, Discharges;
    var s1 := Written(s.(active := s.active - {r.username}), ReleasedRow(r, c.at), true);
    DutiesAreAtomic(cfg, s1, j, p, Event(action, actor, r, detail, false), Mark(r.id, ReleasedRequester(ReasonOf(action))), c);
  }

  lemma EndsHalfway(cfg: Config, s: State, r: Request, actor: string, action: Action, detail: string, c: Calls)
    requires !Ends(s, r, c)
    ensures EndGrant(cfg, s, r, actor, action, detail, c) == s.(active := AfterRemove(s.active, r.username, c.group))
  {}

  function ReleaseTurns(cfg: Config, j: Journal, p: nat, op: Op): Journal
    requires op.ReleaseOp?
  {
    var j1 := Called(cfg, j, BeginRelease(p, op.id), op.actor, false);
    var j2 := Called(cfg, j1, Call(p, op.c.group, op.c.at, []), op.actor, false);
    var j3 := Called(cfg, j2, Call(p, Wrote(op.c.write), op.c.at, []), op.actor, false);
    Discharges(cfg, j3, p, [op.c.audit, op.c.mark, true])
  }

  // The same of a release.
  lemma ReleaseIsItsTurns(cfg: Config, s: State, j: Journal, p: nat, op: Op)
    requires Keyed(s) && Mirrors(j, s, p) && ReachesRemoval(s, op)
    ensures Mirrors(ReleaseTurns(cfg, j, p, op), Step(cfg, s, op), p) && ReleaseTurns(cfg, j, p, op).w.procs == j.w.procs
  {
    hide Discharges, Step, EndGrant;
    ReleaseCases(cfg, s, op);
    var r, c := s.reqs[op.id], op.c;
    var actor, detail := if op.actor == "" then "system" else op.actor, "removed from " + cfg.activeGroup;
    var j1 := Called(cfg, j, BeginRelease(p, op.id), op.actor, false);
    var j2 := Called(cfg, j1, Call(p, c.group, c.at, []), op.actor, false);
    var j3 := Called(cfg, j2, Call(p, Wrote(c.write), c.at, []), op.actor, false);
    if Ends(s, r, c) {
      EndsAtomically(cfg, s, j3, p, r, actor, EarlyRelease, detail, c);
    } else {
      EndsHalfway(cfg, s, r, actor, EarlyRelease, detail, c);
      NothingOwed(cfg, j3, p, [c.audit, c.mark, true]);
    }
  }

  // ----- a pass -----

  function SweepTurns(cfg: Config, j: Journal, p: nat, rest: seq<Request>, row: string -> Calls): Journal
    decreases |rest|
  {
    if rest == [] then j
    else
      var c := row(rest[0].id);
      var j1 := Called(cfg, j, Call(p, Wrote(c.write), 0, []), "", false);
      SweepTurns(cfg, Discharges(cfg, j1, p, [c.audit, c.mark, true]), p, rest[1..], row)
  }

  function RevokeTurns(cfg: Config, j: Journal, p: nat, rest: seq<Request>, row: string -> Calls): Journal
    decreases |rest|
  {
    if rest == [] then j
    else
      var c := row(rest[0].id);
      var j1 := Called(cfg, j, Call(p, c.group, c.at, []), "", false);
      var j2 := if c.group == Done then Called(cfg, j1, Call(p, Wrote(c.write), c.at, []), "", false) else j1;
      RevokeTurns(cfg, Discharges(cfg, j2, p, [c.audit, c.mark, true]), p, rest[1..], row)
  }

  function ReconcileTurns(cfg: Config, j: Journal, p: nat, pass: Pass): Journal {
    if !pass.query then j
    else
      var j1 := Called(cfg, j, BeginReconcile(p, pass.now, pass.plan), "", false);
      var j2 := SweepTurns(cfg, j1, p, OverdueRows(j.w, pass.plan, Pending, RequestExpiresAt, pass.now), pass.row);
      var j3 := Called(cfg, j2, Call(p, Wrote(pass.query2), pass.now, pass.plan2), "", false);
      if !pass.query2 then j3
      else RevokeTurns(cfg, j3, p, OverdueRows(j2.w, pass.plan2, Approved, ActiveExpiresAt, pass.now), pass.row)
  }

  // Rows, membership, log, marks and posts are as the atomic state has them, and `p` owes nothing.
  predicate Keeps(j: Journal, s: State, p: nat) {
    j.w.reqs == s.reqs && j.w.active == s.active && Records(j, s) && !Busy(j, p)
  }

  lemma ExpiryTurn(cfg: Config, s: State, j: Journal, p: nat, now: Instant, rest: seq<Request>, c: Calls, others: map<nat, Proc>)
    returns (j': Journal)
    requires rest != [] && Keeps(j, s, p) && rest[0].id in s.reqs && j.w.procs == others[p := Sweeping(now, rest)]
    ensures j' == Discharges(cfg, Called(cfg, j, Call(p, Wrote(c.write), 0, []), "", false), p, [c.audit, c.mark, true])
    ensures Keeps(j', ExpireOverdue(cfg, s, rest[0], c), p)
    ensures j'.w.procs == others[p := if rest[1..] == [] then Querying(now) else Sweeping(now, rest[1..])]
  {
    hide Appended, Discharges;
    var r := rest[0];
    var j1 := Called(cfg, j, Call(p, Wrote(c.write), 0, []), "", false);
    j' := Discharges(cfg, j1, p, [c.audit, c.mark, true]);
    if c.write {
      DutiesAreAtomic(cfg, Written(s, ExpiredRow(r), true), j1, p, Event(RequestExpired, "system", r, "request TTL elapsed", false), Mark(r.id, ExpiredRequester), c);
    } else {
      NothingOwed(cfg, j1, p, [c.audit, c.mark, true]);
    }
  }

  lemma {:induction false} SweepIsItsTurns(cfg: Config, s: State, j: Journal, p: nat, now: Instant, rest: seq<Request>, row: string -> Calls, others: map<nat, Proc>)
    requires Keeps(j, s, p) && forall r :: r in rest ==> r.id in s.reqs
    requires j.w.procs == others[p := if rest == [] then Querying(now) else Sweeping(now, rest)]
    ensures Keeps(SweepTurns(cfg, j, p, rest, row), ExpireAll(cfg, s, rest, row), p)
    ensures SweepTurns(cfg, j, p, rest, row).w.procs == others[p := Querying(now)]
    decreases |rest|
  {
    hide Keeps, Called, Discharges, ExpireOverdue;
    if rest != [] {
      var r := rest[0];
      var s1 := ExpireOverdue(cfg, s, r, row(r.id));
      assert r in rest;
      ExpireOverdueRow(cfg, s, r, row(r.id));
      ExpireAllHead(cfg, s, rest, row);
      var j1 := ExpiryTurn(cfg, s, j, p, now, rest, row(r.id), others);
      SweepIsItsTurns(cfg, s1, j1, p, now, rest[1..], row, others);
    }
  }

  // The two calls of a row's turn in the second loop.
  lemma RemovalTurn(cfg: Config, j: Journal, p: nat, now: Instant, rest: seq<Request>, c: Calls, others: map<nat, Proc>)
    returns (j1: Journal)
    requires rest != [] && !Busy(j, p) && p !in others && j.w.procs == others[p := Revoking(now, rest)]
    ensures j1 == Called(cfg, j, Call(p, c.group, c.at, []), "", false)
    ensures !Busy(j1, p) && j1.(w := j.w, owed := j.owed) == j && j1.w.reqs == j.w.reqs
    ensures j1.w.active == AfterRemove(j.w.active, rest[0].username, c.group)
    ensures j1.w.procs == if c.group == Done then others[p := Revoked(now, rest)]
                          else if rest[1..] == [] then others else others[p := Revoking(now, rest[1..])]
  {
    j1 := Called(cfg, j, Call(p, c.group, c.at, []), "", false);
  }

  lemma EndingTurn(cfg: Config, j: Journal, p: nat, now: Instant, rest: seq<Request>, c: Calls, others: map<nat, Proc>)
    returns (j1: Journal)
    requires rest != [] && !Busy(j, p) && p !in others && j.w.procs == others[p := Revoked(now, rest)]
    ensures j1 == Called(cfg, j, Call(p, Wrote(c.write), c.at, []), "", false)
    ensures p in j1.owed && j1.owed[p] == if c.write then EndDuties(rest[0], "system", GrantExpired, "active TTL elapsed; revoked") else []
    ensures j1.(w := j.w, owed := j.owed) == j && j1.w.active == j.w.active
    ensures j1.w.reqs == if c.write then j.w.reqs[rest[0].id := ReleasedRow(rest[0], c.at)] else j.w.reqs
    ensures j1.w.procs == if rest[1..] == [] then others else others[p := Revoking(now, rest[1..])]
  {
    j1 := Called(cfg, j, Call(p, Wrote(c.write), c.at, []), "", false);
  }

  lemma RevocationTurn(cfg: Config, s: State, j: Journal, p: nat, now: Instant, rest: seq<Request>, c: Calls, others: map<nat, Proc>)
    returns (j': Journal)
    requires rest != [] && Keeps(j, s, p) && p !in others && rest[0].id in s.reqs && j.w.procs == others[p := Revoking(now, rest)]
    ensures var j1 := Called(cfg, j, Call(p, c.group, c.at, []), "", false);
            var j2 := if c.group == Done then Called(cfg, j1, Call(p, Wrote(c.write), c.at, []), "", false) else j1;
            j' == Discharges(cfg, j2, p, [c.audit, c.mark, true])
    ensures Keeps(j', EndGrant(cfg, s, rest[0], "system", GrantExpired, "active TTL elapsed; revoked", c), p)
    ensures j'.w.procs == if rest[1..] == [] then others else others[p := Revoking(now, rest[1..])]
  {
    hide Discharges, EndGrant, Called, EndDuties;
    var r, detail := rest[0], "active TTL elapsed; revoked";
    var j1 := RemovalTurn(cfg, j, p, now, rest, c, others);
    var j2 := j1;
    if c.group == Done {
      j2 := EndingTurn(cfg, j1, p, now, rest, c, others);
    }
    j' := Discharges(cfg, j2, p, [c.audit, c.mark, true]);
    if Ends(s, r, c) {
      EndsAtomically(cfg, s, j2, p, r, "system", GrantExpired, detail, c);
    } else {
      EndsHalfway(cfg, s, r, "system", GrantExpired, detail, c);
      NothingOwed(cfg, j2, p, [c.audit, c.mark, true]);
    }
  }

  lemma {:induction false} RevokeIsItsTurns(cfg: Config, s: State, j: Journal, p: nat, now: Instant, rest: seq<Request>, row: string -> Calls, others: map<nat, Proc>)
    requires Keeps(j, s, p) && p !in others && forall r :: r in rest ==> r.id in s.reqs
    requires j.w.procs == if rest == [] then others else others[p := Revoking(now, rest)]
    ensures Keeps(RevokeTurns(cfg, j, p, rest, row), RevokeAll(cfg, s, rest, row), p)
    ensures RevokeTurns(cfg, j, p, rest, row).w.procs == others
    decreases |rest|
  {
    hide Keeps, Called, Discharges, EndGrant;
    if rest != [] {
      var r := rest[0];
      var s1 := EndGrant(cfg, s, r, "system", GrantExpired, "active TTL elapsed; revoked", row(r.id));
      assert r in rest;
      EndGrantRow(cfg, s, r, "system", GrantExpired, "active TTL elapsed; revoked", row(r.id));
      RevokeAllHead(cfg, s, rest, row);
      var j1 := RevocationTurn(cfg, s, j, p, now, rest, row(r.id), others);
      RevokeIsItsTurns(cfg, s1, j1, p, now, rest[1..], row, others);
    }
  }

  // The same of a whole pass, with any failures.
  lemma ReconcileIsItsTurns(cfg: Config, s: State, j: Journal, p: nat, pass: Pass)
    requires Keyed(s) && PassFits(s, pass) && Mirrors(j, s, p)
    ensures Mirrors(ReconcileTurns(cfg, j, p, pass), Reconcile(cfg, s, pass), p)
    ensures ReconcileTurns(cfg, j, p, pass).w.procs == j.w.procs
  {
    hide ExpireAll, RevokeAll, Select, Matches, SweepTurns, RevokeTurns, Called, Records;
    if pass.query {
      var batch := PendingBatch(s, pass);
      InTable(s, pass.plan, Pending, RequestExpiresAt, pass.now);
      var j1 := BeginTurn(cfg, s, j, p, pass);
      SweepIsItsTurns(cfg, s, j1, p, pass.now, batch, pass.row, j.w.procs);
      ExpirePhase(cfg, s, pass);
      var s2 := ExpireAll(cfg, s, batch, pass.row);
      var j2 := SweepTurns(cfg, j1, p, batch, pass.row);
      var j3 := QueryTurn(cfg, s2, j2, p, pass, j.w.procs);
      if pass.query2 {
        InTable(s2, pass.plan2, Approved, ActiveExpiresAt, pass.now);
        RevokeIsItsTurns(cfg, s2, j3, p, pass.now, ActiveBatch(s2, pass), pass.row, j.w.procs);
      }
    }
  }

  lemma InTable(s: State, plan: seq<string>, status: Status, col: Column, now: Instant)
    requires Keyed(s) && Enumerates(plan, s.reqs.Keys)
    ensures forall r :: r in Select(s.reqs, plan, status, col, now) ==> r.id in s.reqs
  {
    hide Select, Matches;
    BatchExact(s, plan, status, col, now);
  }

  // A pass begins with its first query, and goes on with its second.
  lemma BeginTurn(cfg: Config, s: State, j: Journal, p: nat, pass: Pass) returns (j1: Journal)
    requires PlansFit(s, pass) && Mirrors(j, s, p)
    ensures j1 == Called(cfg, j, BeginReconcile(p, pass.now, pass.plan), "", false) && Keeps(j1, s, p)
    ensures var batch := PendingBatch(s, pass);
            && OverdueRows(j.w, pass.plan, Pending, RequestExpiresAt, pass.now) == batch
            && j1.w.procs == j.w.procs[p := if batch == [] then Querying(pass.now) else Sweeping(pass.now, batch)]
  {
    hide Select;
    j1 := Called(cfg, j, BeginReconcile(p, pass.now, pass.plan), "", false);
  }

  lemma QueryTurn(cfg: Config, s: State, j: Journal, p: nat, pass: Pass, others: map<nat, Proc>) returns (j1: Journal)
    requires PlansFit(s, pass) && Keeps(j, s, p) && p !in others && j.w.procs == others[p := Querying(pass.now)]
    ensures j1 == Called(cfg, j, Call(p, Wrote(pass.query2), pass.now, pass.plan2), "", false) && Keeps(j1, s, p)
    ensures OverdueRows(j.w, pass.plan2, Approved, ActiveExpiresAt, pass.now) == ActiveBatch(s, pass)
    ensures j1.w.procs == if !pass.query2 || ActiveBatch(s, pass) == [] then others else others[p := Revoking(pass.now, ActiveBatch(s, pass))]
  {
    hide Select;
    j1 := Called(cfg, j, Call(p, Wrote(pass.query2), pass.now, pass.plan2), "", false);
  }
}
