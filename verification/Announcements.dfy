/** What is announced in sequential runs: exactly what happened, and everything that happened. */
module Announcements {
  import opened Text
  import opened Timestamp
  import opened Deadlines
  import opened Requests
  import opened Storage
  import opened AuditView
  import opened Protocol
  import opened Sweep
  import opened Runs
  import opened Lifecycle
  import Membership
  import opened Notifications
  import opened Provenance

  // ----- the marks and posts of one operation -----

  // The operation, begun in `s`, gets as far as announcing this, and its mark call is answered. The late
  // branch announces an expiry whether or not it wrote it.
  predicate Announces(cfg: Config, s: State, op: Op, mark: Mark) {
    cfg.notifications &&
    match mark.kind
    case PendingApprovers => Creates(s, op) && op.id == mark.requestId && op.c.mark
    case ApprovedRequester => Approves(s, op) && op.id == mark.requestId && op.c.mark
    case ExpiredRequester =>
      || (ExpiresLate(s, op) && op.id == mark.requestId && op.c.mark)
      || (op.ReconcileOp? && Lapses(s, op.pass, mark.requestId) && op.pass.row(mark.requestId).mark)
    case ReleasedRequester(reason) =>
      || (reason == ByEarlyRelease && Releases(s, op) && op.id == mark.requestId && op.c.mark)
      || (reason == ByExpiry && op.ReconcileOp? && RunsOut(s, op.pass, mark.requestId) && op.pass.row(mark.requestId).mark)
  }

  ghost function Announced(cfg: Config, s: State, op: Op): iset<Mark> {
    iset mark: Mark | Announces(cfg, s, op, mark)
  }

  // The marks grow by exactly these, and those that are new are posted, each once.
  ghost predicate Tells(s: State, s': State, told: iset<Mark>) {
    && (forall mark :: mark in s'.marks <==> mark in s.marks || mark in told)
    && s.posts <= s'.posts
    && (forall i :: |s.posts| <= i < |s'.posts| ==> s'.posts[i] in told && s'.posts[i] !in s.marks)
    && (forall mark :: mark in told && mark !in s.marks ==> exists i :: |s.posts| <= i < |s'.posts| && s'.posts[i] == mark)
    && (forall i, j :: |s.posts| <= i < j < |s'.posts| ==> s'.posts[i] != s'.posts[j])
  }

  lemma TellsNothing(s: State, s': State)
    requires s'.marks == s.marks && s'.posts == s.posts
    ensures Tells(s, s', iset{})
  {}

  // The notification an operation makes after whatever else it did.
  lemma TellsOne(cfg: Config, s: State, s1: State, mark: Mark, up: bool)
    requires s1.marks == s.marks && s1.posts == s.posts
    ensures Tells(s, Notified(cfg, s1, mark, up), if cfg.notifications && up then iset{mark} else iset{})
  {
    var s' := Notified(cfg, s1, mark, up);
    if cfg.notifications && up && mark !in s.marks {
      assert s'.posts[|s.posts|] == mark;
    }
  }

  lemma TellsThen(a: State, b: State, c: State, p: iset<Mark>, q: iset<Mark>)
    requires Tells(a, b, p) && Tells(b, c, q)
    ensures Tells(a, c, p + q)
  {
    assert forall i :: 0 <= i < |b.posts| ==> c.posts[i] == b.posts[i];
    forall mark | mark in p && mark !in a.marks ensures exists i :: |a.posts| <= i < |c.posts| && c.posts[i] == mark {
      var i :| |a.posts| <= i < |b.posts| && b.posts[i] == mark;
      assert c.posts[i] == mark;
    }
  }

  lemma CreateTells(cfg: Config, s: State, op: Op)
    requires op.CreateOp?
    ensures Tells(s, Step(cfg, s, op), Announced(cfg, s, op))
  {
    hide TrimSpace, Trimmed, Size, Tells, Appended, Notified;
    if Creates(s, op) {
      var r := NewRow(cfg, op.id, Asker(op), TrimSpace(op.justification), op.now);
      var e := Event(RequestCreated, op.actor, r, "pending elevation request", op.breakGlass);
      var s1 := Logged(s.(reqs := s.reqs[op.id := r]), e, op.c.audit);
      TellsOne(cfg, s, s1, Mark(op.id, PendingApprovers), op.c.mark);
      assert Announced(cfg, s, op) == if cfg.notifications && op.c.mark then iset{Mark(op.id, PendingApprovers)} else iset{};
    } else {
      TellsNothing(s, s);
      assert Announced(cfg, s, op) == iset{};
    }
  }

  lemma GrantTells(cfg: Config, s: State, op: Op)
    requires Keyed(s) && op.ApproveOp? && ReachesGrant(s, op)
    ensures Tells(s, Grant(cfg, s, s.reqs[op.id], op.actor, TrimSpace(op.text), op.now, op.breakGlass, op.c).state, Announced(cfg, s, op))
  {
    hide TrimSpace, Trimmed, Size, Tells, Appended, Notified;
    var r, notes := s.reqs[op.id], TrimSpace(op.text);
    if Approves(s, op) {
      var s1 := Logged(Logged(Written(s.(active := AfterAdd(s.active, r.username, op.c.group)), ApprovedRow(cfg, r, op.now, op.actor, notes), true),
                              Event(RequestApproved, op.actor, r, "notes: " + notes, op.breakGlass), op.c.audit),
                       Event(GrantActive, op.actor, r, "user added to " + cfg.activeGroup, op.breakGlass), op.c.audit2);
      TellsOne(cfg, s, s1, Mark(op.id, ApprovedRequester), op.c.mark);
      assert Announced(cfg, s, op) == if cfg.notifications && op.c.mark then iset{Mark(op.id, ApprovedRequester)} else iset{};
    } else {
      TellsNothing(s, Grant(cfg, s, r, op.actor, notes, op.now, op.breakGlass, op.c).state);
      assert Announced(cfg, s, op) == iset{};
    }
  }

  lemma LateTells(cfg: Config, s: State, op: Op)
    requires Keyed(s) && op.ApproveOp? && ExpiresLate(s, op)
    ensures Tells(s, ExpireLate(cfg, s, s.reqs[op.id], op.c), Announced(cfg, s, op))
  {
    hide TrimSpace, Trimmed, Size, Tells, Appended, Notified;
    var r := s.reqs[op.id];
    var s1 := Logged(Written(s, ExpiredRow(r), op.c.write), Event(RequestExpired, "system", r, "expired before approve", false), op.c.audit);
    TellsOne(cfg, s, s1, Mark(op.id, ExpiredRequester), op.c.mark);
    assert Announced(cfg, s, op) == if cfg.notifications && op.c.mark then iset{Mark(op.id, ExpiredRequester)} else iset{};
  }

  lemma ApproveTells(cfg: Config, s: State, op: Op)
    requires Keyed(s) && op.ApproveOp?
    ensures Tells(s, Step(cfg, s, op), Announced(cfg, s, op))
  {
    hide TrimSpace, Trimmed, Size, Tells, Step, Late, ExpireLate, Grant;
    ApproveCases(cfg, s, op);
    if ReachesGrant(s, op) {
      GrantTells(cfg, s, op);
    } else if ExpiresLate(s, op) {
      LateTells(cfg, s, op);
    } else {
      TellsNothing(s, s);
      assert Announced(cfg, s, op) == iset{};
    }
  }

  lemma ReleaseTells(cfg: Config, s: State, op: Op)
    requires Keyed(s) && op.ReleaseOp?
    ensures Tells(s, Step(cfg, s, op), Announced(cfg, s, op))
  {
    hide Tells, Appended, Notified;
    if Releases(s, op) {
      var r, actor := s.reqs[op.id], if op.actor == "" then "system" else op.actor;
      var s1 := Logged(Written(s.(active := AfterRemove(s.active, r.username, op.c.group)), ReleasedRow(r, op.c.at), true),
                       Event(EarlyRelease, actor, r, "removed from " + cfg.activeGroup, false), op.c.audit);
      TellsOne(cfg, s, s1, Mark(op.id, ReleasedRequester(ByEarlyRelease)), op.c.mark);
      assert Announced(cfg, s, op) == if cfg.notifications && op.c.mark then iset{Mark(op.id, ReleasedRequester(ByEarlyRelease))} else iset{};
    } else {
      TellsNothing(s, Step(cfg, s, op));
      assert Announced(cfg, s, op) == iset{};
    }
  }

  // ----- a pass -----

  ghost function LapsesTold(cfg: Config, batch: seq<Request>, row: string -> Calls): iset<Mark> {
    iset r | r in batch && cfg.notifications && row(r.id).write && row(r.id).mark :: Mark(r.id, ExpiredRequester)
  }

  ghost function EndsTold(cfg: Config, batch: seq<Request>, row: string -> Calls): iset<Mark> {
    iset r | r in batch && cfg.notifications && row(r.id).group == Done && row(r.id).write && row(r.id).mark ::
      Mark(r.id, ReleasedRequester(ByExpiry))
  }

  lemma ToldOfLast(cfg: Config, batch: seq<Request>, row: string -> Calls)
    requires batch != []
    ensures var init, last := batch[..|batch| - 1], batch[|batch| - 1]; var c := row(last.id);
            && LapsesTold(cfg, batch, row) ==
               LapsesTold(cfg, init, row) + (if cfg.notifications && c.write && c.mark then iset{Mark(last.id, ExpiredRequester)} else iset{})
            && EndsTold(cfg, batch, row) ==
               EndsTold(cfg, init, row)
               + (if cfg.notifications && c.group == Done && c.write && c.mark then iset{Mark(last.id, ReleasedRequester(ByExpiry))} else iset{})
  {
    assert batch == batch[..|batch| - 1] + [batch[|batch| - 1]];
  }

  lemma NothingTold(cfg: Config, row: string -> Calls)
    ensures LapsesTold(cfg, [], row) == iset{} && EndsTold(cfg, [], row) == iset{}
  {}

  lemma LapseTells(cfg: Config, s: State, r: Request, c: Calls)
    requires r.id in s.reqs
    ensures Tells(s, ExpireOverdue(cfg, s, r, c), if cfg.notifications && c.write && c.mark then iset{Mark(r.id, ExpiredRequester)} else iset{})
  {
    hide Tells, Notified, Appended;
    if c.write {
      var s1 := Logged(Written(s, ExpiredRow(r), true), Event(RequestExpired, "system", r, "request TTL elapsed", false), c.audit);
      TellsOne(cfg, s, s1, Mark(r.id, ExpiredRequester), c.mark);
    } else {
      TellsNothing(s, s);
    }
  }

  lemma EndTells(cfg: Config, s: State, r: Request, c: Calls)
    requires r.id in s.reqs
    ensures Tells(s, EndGrant(cfg, s, r, "system", GrantExpired, "active TTL elapsed; revoked", c),
                  if cfg.notifications && c.group == Done && c.write && c.mark then iset{Mark(r.id, ReleasedRequester(ByExpiry))} else iset{})
  {
    hide Tells, Notified, Appended;
    var detail := "active TTL elapsed; revoked";
    if Ends(s, r, c) {
      var s1 := Logged(Written(s.(active := AfterRemove(s.active, r.username, c.group)), ReleasedRow(r, c.at), true),
                       Event(GrantExpired, "system", r, detail, false), c.audit);
      TellsOne(cfg, s, s1, Mark(r.id, ReleasedRequester(ByExpiry)), c.mark);
    } else {
      TellsNothing(s, EndGrant(cfg, s, r, "system", GrantExpired, detail, c));
    }
  }

  lemma {:induction false} ExpireAllTells(cfg: Config, s: State, batch: seq<Request>, row: string -> Calls)
    requires Held(s.reqs, batch)
    ensures Tells(s, ExpireAll(cfg, s, batch, row), LapsesTold(cfg, batch, row))
  {
    hide Tells, Held, LapsesTold, ExpireOverdue;
    if batch == [] {
      TellsNothing(s, s);
      NothingTold(cfg, row);
    } else {
      var init, last := batch[..|batch| - 1], batch[|batch| - 1];
      var s1, c := ExpireAll(cfg, s, init, row), row(last.id);
      InitHeld(s.reqs, batch);
      ExpireAllTells(cfg, s, init, row);
      ToldOfLast(cfg, batch, row);
      LapseTells(cfg, s1, last, c);
      TellsThen(s, s1, ExpireAll(cfg, s, batch, row), LapsesTold(cfg, init, row),
                if cfg.notifications && c.write && c.mark then iset{Mark(last.id, ExpiredRequester)} else iset{});
    }
  }

  lemma {:induction false} RevokeAllTells(cfg: Config, s: State, batch: seq<Request>, row: string -> Calls)
    requires Held(s.reqs, batch)
    ensures Tells(s, RevokeAll(cfg, s, batch, row), EndsTold(cfg, batch, row))
  {
    hide Tells, Held, EndsTold, EndGrant;
    if batch == [] {
      TellsNothing(s, s);
      NothingTold(cfg, row);
    } else {
      var init, last := batch[..|batch| - 1], batch[|batch| - 1];
      var s1, c := RevokeAll(cfg, s, init, row), row(last.id);
      InitHeld(s.reqs, batch);
      RevokeAllTells(cfg, s, init, row);
      ToldOfLast(cfg, batch, row);
      EndTells(cfg, s1, last, c);
      TellsThen(s, s1, RevokeAll(cfg, s, batch, row), EndsTold(cfg, init, row),
                if cfg.notifications && c.group == Done && c.write && c.mark then iset{Mark(last.id, ReleasedRequester(ByExpiry))} else iset{});
    }
  }

  lemma LapsesToldExactly(cfg: Config, s: State, p: Pass, batch: seq<Request>, mark: Mark)
    requires Keyed(s) && p.query
    requires forall r :: r in batch <==> r.id in s.reqs && s.reqs[r.id] == r && PendingOverdue(r, p.now)
    ensures mark in LapsesTold(cfg, batch, p.row) <==>
            cfg.notifications && mark.kind == ExpiredRequester && Lapses(s, p, mark.requestId) && p.row(mark.requestId).mark
  {
    hide PendingOverdue;
    if mark.requestId in s.reqs {
      var r := s.reqs[mark.requestId];
      assert r in batch <==> PendingOverdue(r, p.now);
    }
  }

  lemma EndsToldExactly(cfg: Config, s: State, p: Pass, batch: seq<Request>, mark: Mark)
    requires Keyed(s) && p.query && p.query2
    requires forall r :: r in batch <==> r.id in s.reqs && s.reqs[r.id] == r && ActiveOverdue(r, p.now)
    ensures mark in EndsTold(cfg, batch, p.row) <==>
            cfg.notifications && mark.kind == ReleasedRequester(ByExpiry) && RunsOut(s, p, mark.requestId) && p.row(mark.requestId).mark
  {
    hide ActiveOverdue;
    if mark.requestId in s.reqs {
      var r := s.reqs[mark.requestId];
      assert r in batch <==> ActiveOverdue(r, p.now);
    }
  }

  ghost function Lapsing(cfg: Config, s: State, p: Pass): iset<Mark> {
    iset mark: Mark | cfg.notifications && mark.kind == ExpiredRequester && Lapses(s, p, mark.requestId) && p.row(mark.requestId).mark
  }

  ghost function Ending(cfg: Config, s: State, p: Pass): iset<Mark> {
    iset mark: Mark | cfg.notifications && mark.kind == ReleasedRequester(ByExpiry) && RunsOut(s, p, mark.requestId) && p.row(mark.requestId).mark
  }

  lemma FirstTells(cfg: Config, s: State, p: Pass)
    requires Keyed(s) && PassFits(s, p) && p.query
    ensures Tells(s, ExpireAll(cfg, s, PendingBatch(s, p), p.row), Lapsing(cfg, s, p))
  {
    hide Tells, ExpireAll, Select, Matches, LapsesTold, Held, Lapses;
    var batch := PendingBatch(s, p);
    BatchExact(s, p.plan, Pending, RequestExpiresAt, p.now);
    ExpireAllTells(cfg, s, batch, p.row);
    forall mark ensures mark in LapsesTold(cfg, batch, p.row) <==> mark in Lapsing(cfg, s, p) {
      LapsesToldExactly(cfg, s, p, batch, mark);
    }
    assert LapsesTold(cfg, batch, p.row) == Lapsing(cfg, s, p);
  }

  lemma SecondTells(cfg: Config, s: State, p: Pass)
    requires Keyed(s) && PassFits(s, p) && p.query && p.query2
    ensures Tells(s, RevokeAll(cfg, s, ActiveBatch(s, p), p.row), Ending(cfg, s, p))
  {
    hide Tells, RevokeAll, Select, Matches, EndsTold, Held, RunsOut;
    var batch := ActiveBatch(s, p);
    BatchExact(s, p.plan2, Approved, ActiveExpiresAt, p.now);
    RevokeAllTells(cfg, s, batch, p.row);
    forall mark ensures mark in EndsTold(cfg, batch, p.row) <==> mark in Ending(cfg, s, p) {
      EndsToldExactly(cfg, s, p, batch, mark);
    }
    assert EndsTold(cfg, batch, p.row) == Ending(cfg, s, p);
  }

  lemma ToldByPass(cfg: Config, s: State, p: Pass)
    ensures Announced(cfg, s, ReconcileOp(p)) == Lapsing(cfg, s, p) + Ending(cfg, s, p)
    ensures !p.query ==> Lapsing(cfg, s, p) == iset{}
    ensures !p.query || !p.query2 ==> Ending(cfg, s, p) == iset{}
  {
    hide PendingOverdue, ActiveOverdue;
  }

  lemma PassTells(cfg: Config, s: State, p: Pass)
    requires Keyed(s) && PassFits(s, p)
    ensures Tells(s, Reconcile(cfg, s, p), Announced(cfg, s, ReconcileOp(p)))
  {
    hide Tells, ExpireAll, RevokeAll, Select, Announced, Lapsing, Ending;
    TellsNothing(s, s);
    ToldByPass(cfg, s, p);
    if p.query {
      var s1 := ExpireAll(cfg, s, PendingBatch(s, p), p.row);
      FirstTells(cfg, s, p);
      if p.query2 {
        SameGrantsDue(cfg, s, p);
        SecondTells(cfg, s1, p);
        assert Ending(cfg, s1, p) == Ending(cfg, s, p) by { SameEnding(cfg, s, s1, p); }
        TellsThen(s, s1, Reconcile(cfg, s, p), Lapsing(cfg, s, p), Ending(cfg, s, p));
      } else {
        assert Lapsing(cfg, s, p) + iset{} == Lapsing(cfg, s, p);
      }
    } else {
      assert Lapsing(cfg, s, p) + Ending(cfg, s, p) == iset{};
    }
  }

  lemma SameEnding(cfg: Config, s: State, s1: State, p: Pass)
    requires forall id :: RunsOut(s1, p, id) <==> RunsOut(s, p, id)
    ensures Ending(cfg, s1, p) == Ending(cfg, s, p)
  {
    hide RunsOut;
  }

  // An operation, whatever fails, marks exactly what it gets to announce, and posts exactly those of
  // them that are new, each once.
  lemma StepTells(cfg: Config, s: State, clock: Instant, op: Op)
    requires Keyed(s) && Admissible(cfg, s, clock, op)
    ensures Tells(s, Step(cfg, s, op), Announced(cfg, s, op))
  {
    hide Tells, Announced;
    match op
    case CreateOp(_, _, _, _, _, _, _, _) =>
      hide Step;
      CreateTells(cfg, s, op);
    case ApproveOp(_, _, _, _, _, _, _) =>
      hide Step;
      ApproveTells(cfg, s, op);
    case ReleaseOp(_, _, _, _) =>
      hide Step;
      ReleaseTells(cfg, s, op);
    case ReconcileOp(pass) =>
      hide Reconcile;
      PassTells(cfg, s, pass);
    case SessionOp(_, _, _) =>
      hide Appended;
      TellsNothing(s, Step(cfg, s, op));
      assert Announced(cfg, s, op) == iset{} by { SessionTellsNothing(cfg, s, op); }
  }

  lemma SessionTellsNothing(cfg: Config, s: State, op: Op)
    requires op.SessionOp?
    ensures Announced(cfg, s, op) == iset{}
  {}

  // ----- runs -----

  predicate AnnouncedAt(cfg: Config, start: Instant, ops: seq<Op>, k: nat, mark: Mark) {
    k < |ops| && Announces(cfg, StateAt(cfg, EMPTY, start, ops, k), ops[k], mark)
  }

  // In a run from an empty table, whatever fails, exactly what operations got to announce is marked and
  // posted, and each of it once.
  lemma {:induction false} PostedExactly(cfg: Config, start: Instant, ops: seq<Op>, n: nat)
    requires IsRun(cfg, EMPTY, start, ops) && n <= |ops|
    ensures var s := StateAt(cfg, EMPTY, start, ops, n);
            && (forall mark :: mark in s.marks <==> exists k: nat :: k < n && AnnouncedAt(cfg, start, ops, k, mark))
            && (forall mark :: mark in s.posts <==> mark in s.marks)
            && OnceEach(s.marks, s.posts)
  {
    hide Run, IsRun, Step, Shaped, EndOf, Admissible, Announces;
    NothingLogged(cfg, start, ops);
    if n > 0 {
      var k := n - 1;
      var s, s', clock := StateAt(cfg, EMPTY, start, ops, k), StateAt(cfg, EMPTY, start, ops, n), EndOf(start, ops[..k]);
      PostedExactly(cfg, start, ops, k);
      NothingIsShaped(cfg, start);
      NextState(cfg, EMPTY, start, ops, k);
      ShapedIsKeyed(cfg, clock, s);
      StepTells(cfg, s, clock, ops[k]);
      forall mark ensures mark in s'.marks <==> exists i: nat :: i < n && AnnouncedAt(cfg, start, ops, i, mark) {
        assert mark in Announced(cfg, s, ops[k]) <==> AnnouncedAt(cfg, start, ops, k, mark);
      }
      MorePosts(s, s', Announced(cfg, s, ops[k]));
    }
  }

  lemma MorePosts(s: State, s': State, told: iset<Mark>)
    requires Tells(s, s', told) && OnceEach(s.marks, s.posts) && forall mark :: mark in s.posts <==> mark in s.marks
    ensures OnceEach(s'.marks, s'.posts) && forall mark :: mark in s'.posts <==> mark in s'.marks
  {
    assert forall i :: 0 <= i < |s.posts| ==> s'.posts[i] == s.posts[i] && s.posts[i] in s.posts;
    forall mark | mark in s'.marks ensures mark in s'.posts {
      if mark in s.marks {
        assert mark in s.posts;
      }
    }
  }

  // ----- fault-free runs -----

  // The marks of the request are exactly those of the path.
  ghost predicate ToldOf(s: State, id: string, path: seq<Kind>) {
    forall kind :: Mark(id, kind) in s.marks <==> kind in path
  }

  // Everything that happened to the request has been announced.
  ghost predicate ToldAll(s: State, id: string) {
    if id !in s.reqs then ToldOf(s, id, [])
    else
      match s.reqs[id].status
      case Pending => ToldOf(s, id, ASKED)
      case Approved => ToldOf(s, id, GRANTED)
      case Expired => ToldOf(s, id, LAPSED)
      case Released => ToldOf(s, id, Ended(ByExpiry)) || ToldOf(s, id, Ended(ByEarlyRelease))
      case Denied => false
  }

  lemma StepToldAll(cfg: Config, s: State, clock: Instant, op: Op, id: string)
    requires Keyed(s) && Admissible(cfg, s, clock, op) && Membership.FaultFree(op) && cfg.notifications && ToldAll(s, id)
    ensures ToldAll(Step(cfg, s, op), id)
  {
    hide TrimSpace, Trimmed, Size, Late, Due, Step, Reconcile, Tells;
    var s' := Step(cfg, s, op);
    StepTells(cfg, s, clock, op);
    MarksAfter(cfg, s, op, s', id);
    match op
    case CreateOp(_, _, _, _, _, _, _, _) => CreateRows(cfg, s, op);
    case ApproveOp(_, _, _, _, _, _, _) => ApproveRows(cfg, s, op);
    case ReleaseOp(_, _, _, _) => ReleaseRows(cfg, s, op);
    case ReconcileOp(pass) =>
      hide Tells, Announces;
      PassToldAll(cfg, s, op, s', id);
    case SessionOp(_, _, _) => SessionRows(cfg, s, op);
  }

  lemma PassToldAll(cfg: Config, s: State, op: Op, s': State, id: string)
    requires Keyed(s) && op.ReconcileOp? && PassFits(s, op.pass) && Membership.FaultFree(op) && cfg.notifications && ToldAll(s, id)
    requires s' == Step(cfg, s, op)
    requires forall kind :: Mark(id, kind) in s'.marks <==> Mark(id, kind) in s.marks || Announces(cfg, s, op, Mark(id, kind))
    ensures ToldAll(s', id)
  {
    hide Step, Due;
    PassStatuses(cfg, s, op, id);
    if id in s.reqs {
      assert s.reqs[id].id == id && Faultless(op.pass.row(id));
    }
  }

  lemma MarksAfter(cfg: Config, s: State, op: Op, s': State, id: string)
    requires Tells(s, s', Announced(cfg, s, op))
    ensures forall kind :: Mark(id, kind) in s'.marks <==> Mark(id, kind) in s.marks || Announces(cfg, s, op, Mark(id, kind))
  {
    hide Announces;
  }

  lemma PassStatuses(cfg: Config, s: State, op: Op, id: string)
    requires Keyed(s) && op.ReconcileOp? && PassFits(s, op.pass)
    ensures Step(cfg, s, op).reqs.Keys == s.reqs.Keys
    ensures id in s.reqs ==>
              Step(cfg, s, op).reqs[id].status ==
              if Lapses(s, op.pass, id) then Expired else if RunsOut(s, op.pass, id) then Released else s.reqs[id].status
  {
    hide Reconcile, Due;
    ReconcileExact(cfg, s, op.pass);
  }

  lemma {:induction false} RunToldAll(cfg: Config, start: Instant, ops: seq<Op>, n: nat, id: string)
    requires IsRun(cfg, EMPTY, start, ops) && n <= |ops| && cfg.notifications
    requires forall i :: 0 <= i < |ops| ==> Membership.FaultFree(ops[i])
    ensures ToldAll(StateAt(cfg, EMPTY, start, ops, n), id)
  {
    hide Run, IsRun, Step, Shaped, EndOf, Admissible, Membership.FaultFree;
    NothingLogged(cfg, start, ops);
    if n > 0 {
      var k := n - 1;
      hide ToldAll;
      RunToldAll(cfg, start, ops, k, id);
      NothingIsShaped(cfg, start);
      NextState(cfg, EMPTY, start, ops, k);
      ShapedIsKeyed(cfg, EndOf(start, ops[..k]), StateAt(cfg, EMPTY, start, ops, k));
      StepToldAll(cfg, StateAt(cfg, EMPTY, start, ops, k), EndOf(start, ops[..k]), ops[k], id);
    }
  }

  lemma {:induction false} AlongOnly(k: seq<Kind>, path: seq<Kind>)
    requires Along(k, path)
    ensures forall x :: x in k ==> x in path
  {
    if k != [] {
      assert k == k[..|k| - 1] + [k[|k| - 1]] && path == path[..|path| - 1] + [path[|path| - 1]];
      if Along(k, path[..|path| - 1]) {
        AlongOnly(k, path[..|path| - 1]);
      } else {
        AlongOnly(k[..|k| - 1], path[..|path| - 1]);
      }
    }
  }

  // Whatever lies along a path and leaves nothing out is the path.
  lemma {:induction false} AlongAll(k: seq<Kind>, path: seq<Kind>)
    requires Along(k, path) && (forall x :: x in path ==> x in k) && forall i, j :: 0 <= i < j < |path| ==> path[i] != path[j]
    ensures k == path
  {
    if path != [] {
      var init, last := path[..|path| - 1], path[|path| - 1];
      assert path == init + [last] && last in k && last !in init;
      if Along(k, init) {
        AlongOnly(k, init);
      } else {
        var shorter := k[..|k| - 1];
        assert k == shorter + [last];
        forall x | x in init ensures x in shorter {
          assert x in k && x != last;
        }
        AlongAll(shorter, init);
      }
    }
  }

  // What fits the row's status and leaves nothing out is the whole path the row took.
  lemma WholePath(s: State, clock: Instant, id: string)
    requires PostsFit(s, clock) && id in s.reqs && ToldAll(s, id) && forall mark :: mark in s.posts <==> mark in s.marks
    ensures var k := KindsOf(s.posts, id);
            match s.reqs[id].status
            case Pending => k == ASKED
            case Approved => k == GRANTED
            case Expired => k == LAPSED
            case Released =>
              || (k == Ended(ByExpiry) && Mark(id, ReleasedRequester(ByExpiry)) in s.marks)
              || (k == Ended(ByEarlyRelease) && Mark(id, ReleasedRequester(ByEarlyRelease)) in s.marks)
            case Denied => false
  {
    hide Along, OnceEach;
    var k := KindsOf(s.posts, id);
    KindsArePosts(s.posts, id);
    hide KindsOf;
    RowFits(s, clock, id);
    match s.reqs[id].status
    case Pending =>
      PathSteps();
      if !Along(k, ASKED) {
        AlongWithout(k, ASKED, ExpiredRequester);
      }
      WholeIfAlong(k, ASKED);
    case Approved => WholeIfAlong(k, GRANTED);
    case Expired => WholeIfAlong(k, LAPSED);
    case Released =>
      if ToldOf(s, id, Ended(ByExpiry)) {
        EndedWhole(k, ByExpiry, ByEarlyRelease);
      } else {
        EndedWhole(k, ByEarlyRelease, ByExpiry);
      }
  }

  lemma EndedWhole(k: seq<Kind>, reason: Reason, other: Reason)
    requires (forall x :: x in k <==> x in Ended(reason)) && reason != other
    requires Along(k, Ended(reason)) || Along(k, Ended(other))
    ensures k == Ended(reason) && ReleasedRequester(reason) in k
  {
    hide Along;
    assert ReleasedRequester(reason) in Ended(reason);
    if Along(k, Ended(other)) {
      AlongOnly(k, Ended(other));
    }
    WholeIfAlong(k, Ended(reason));
  }

  lemma WholeIfAlong(k: seq<Kind>, path: seq<Kind>)
    requires Along(k, path) && forall i, j :: 0 <= i < j < |path| ==> path[i] != path[j]
    requires forall x :: x in k <==> x in path
    ensures k == path
  {
    hide Along;
    AlongAll(k, path);
  }

  // In a fault-free run with notifications, what is posted about a request is exactly the path it took, in
  // order: asked; asked and approved; asked and expired; or asked, approved and ended, by the operation
  // that ended it.
  lemma PostsTellTheWholePath(cfg: Config, start: Instant, ops: seq<Op>, id: string)
    requires IsRun(cfg, EMPTY, start, ops) && cfg.notifications && id in Run(cfg, EMPTY, start, ops).reqs
    requires forall i :: 0 <= i < |ops| ==> Membership.FaultFree(ops[i])
    ensures var s := Run(cfg, EMPTY, start, ops); var k := KindsOf(s.posts, id);
            match s.reqs[id].status
            case Pending => k == ASKED
            case Approved => k == GRANTED
            case Expired => k == LAPSED
            case Released =>
              || (k == Ended(ByEarlyRelease) && exists i :: 0 <= i < |ops| && ops[i].ReleaseOp? && Releases(StateAt(cfg, EMPTY, start, ops, i), ops[i]) && ops[i].id == id)
              || (k == Ended(ByExpiry) && exists i :: 0 <= i < |ops| && ops[i].ReconcileOp? && RunsOut(StateAt(cfg, EMPTY, start, ops, i), ops[i].pass, id))
            case Denied => false
  {
    hide Run, IsRun, Membership.FaultFree, KindsOf, ToldAll, PostsFit, Releases, RunsOut, Creates, Approves, ExpiresLate, Lapses;
    assert ops[..|ops|] == ops;
    var s := Run(cfg, EMPTY, start, ops);
    NothingIsShaped(cfg, start);
    NothingPosted(cfg, start);
    RunPostsFit(cfg, EMPTY, start, ops);
    RunToldAll(cfg, start, ops, |ops|, id);
    PostedExactly(cfg, start, ops, |ops|);
    WholePath(s, EndOf(start, ops), id);
    if s.reqs[id].status == Released {
      if Mark(id, ReleasedRequester(ByEarlyRelease)) in s.marks {
        EarlyEnder(cfg, start, ops, id);
      }
      if Mark(id, ReleasedRequester(ByExpiry)) in s.marks {
        PassEnder(cfg, start, ops, id);
      }
    }
  }

  lemma EarlyEnder(cfg: Config, start: Instant, ops: seq<Op>, id: string)
    requires exists k: nat :: k < |ops| && AnnouncedAt(cfg, start, ops, k, Mark(id, ReleasedRequester(ByEarlyRelease)))
    ensures exists i :: 0 <= i < |ops| && ops[i].ReleaseOp? && Releases(StateAt(cfg, EMPTY, start, ops, i), ops[i]) && ops[i].id == id
  {
    hide StateAt;
    var k: nat :| k < |ops| && AnnouncedAt(cfg, start, ops, k, Mark(id, ReleasedRequester(ByEarlyRelease)));
    assert Releases(StateAt(cfg, EMPTY, start, ops, k), ops[k]);
  }

  lemma PassEnder(cfg: Config, start: Instant, ops: seq<Op>, id: string)
    requires exists k: nat :: k < |ops| && AnnouncedAt(cfg, start, ops, k, Mark(id, ReleasedRequester(ByExpiry)))
    ensures exists i :: 0 <= i < |ops| && ops[i].ReconcileOp? && RunsOut(StateAt(cfg, EMPTY, start, ops, i), ops[i].pass, id)
  {
    hide StateAt;
    var k: nat :| k < |ops| && AnnouncedAt(cfg, start, ops, k, Mark(id, ReleasedRequester(ByExpiry)));
    assert RunsOut(StateAt(cfg, EMPTY, start, ops, k), ops[k].pass, id);
  }

  lemma NothingPosted(cfg: Config, start: Instant)
    ensures PostsFit(EMPTY, start)
  {}
}
