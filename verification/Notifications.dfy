/** Notifications: at most once each, and along one path of the lifecycle. */
module Notifications {
  import opened Text
  import opened Timestamp
  import opened Deadlines
  import opened Requests
  import opened Storage
  import opened AuditView
  import opened Protocol
  import opened Sweep
  import opened Runs
  import opened Lifecycle
  import opened Atomicity

  // ----- any interleaving: mark, then post, with restarts in between -----

  // `due` holds the marks stored by senders that have not posted yet; a restart forgets them.
  datatype Outbox = Outbox(marks: set<Mark>, due: set<Mark>, posts: seq<Mark>)

  datatype Act = TryMark(mark: Mark, up: bool) | Post(mark: Mark) | Reboot

  function Do(o: Outbox, a: Act): Outbox {
    match a
    case TryMark(mark, up) =>
      if up && mark !in o.marks then o.(marks := o.marks + {mark}, due := o.due + {mark}) else o
    case Post(mark) => if mark in o.due then o.(due := o.due - {mark}, posts := o.posts + [mark]) else o
    case Reboot => o.(due := {})
  }

  function DoAll(o: Outbox, acts: seq<Act>): Outbox
    decreases |acts|
  {
    if acts == [] then o else DoAll(Do(o, acts[0]), acts[1..])
  }

  // Each post happened once, after its mark was stored.
  predicate OnceEach(marks: set<Mark>, posts: seq<Mark>) {
    && (forall i :: 0 <= i < |posts| ==> posts[i] in marks)
    && (forall i, j :: 0 <= i < j < |posts| ==> posts[i] != posts[j])
  }

  predicate Orderly(o: Outbox) {
    OnceEach(o.marks, o.posts) && o.due <= o.marks && forall i :: 0 <= i < |o.posts| ==> o.posts[i] !in o.due
  }

  lemma {:induction false} PostedAtMostOnce(o: Outbox, acts: seq<Act>)
    requires Orderly(o)
    ensures Orderly(DoAll(o, acts)) && o.posts <= DoAll(o, acts).posts
    decreases |acts|
  {
    if acts != [] {
      PostedAtMostOnce(Do(o, acts[0]), acts[1..]);
    }
  }

  // What an operation does about a notification is one sender's two acts with nobody in between.
  lemma NotifiedIsMarkThenPost(cfg: Config, s: State, mark: Mark, up: bool)
    requires cfg.notifications && OnceEach(s.marks, s.posts)
    ensures var s' := Notified(cfg, s, mark, up);
            DoAll(Outbox(s.marks, {}, s.posts), [TryMark(mark, up), Post(mark)]) == Outbox(s'.marks, {}, s'.posts)
  {
    var acts := [TryMark(mark, up), Post(mark)];
    assert acts[1..] == [Post(mark)] && acts[1..][1..] == [];
    var o := Do(Outbox(s.marks, {}, s.posts), acts[0]);
    assert DoAll(o, acts[1..]) == DoAll(Do(o, Post(mark)), []);
    assert {mark} - {mark} == {};
  }

  // ----- sequential runs: the posts of one request -----

  function KindsOf(posts: seq<Mark>, id: string): seq<Kind> {
    if posts == [] then []
    else
      var last := posts[|posts| - 1];
      KindsOf(posts[..|posts| - 1], id) + (if last.requestId == id then [last.kind] else [])
  }

  // `k` is `path` with some entries left out.
  predicate Along(k: seq<Kind>, path: seq<Kind>) {
    k == [] ||
    (path != [] &&
     (Along(k, path[..|path| - 1]) || (k[|k| - 1] == path[|path| - 1] && Along(k[..|k| - 1], path[..|path| - 1]))))
  }

  const ASKED: seq<Kind> := [PendingApprovers]
  const LAPSED: seq<Kind> := [PendingApprovers, ExpiredRequester]
  const GRANTED: seq<Kind> := [PendingApprovers, ApprovedRequester]

  function Ended(reason: Reason): seq<Kind> {
    [PendingApprovers, ApprovedRequester, ReleasedRequester(reason)]
  }

  // What can have been posted about a row by `clock`. A pending row may have lapsed already when
  // the write of its late branch failed.
  predicate KindsFit(r: Request, clock: Instant, k: seq<Kind>) {
    match r.status
    case Pending => Along(k, ASKED) || (Late(r.requestExpiresAt, clock) && Along(k, LAPSED))
    case Approved => Along(k, GRANTED)
    case Expired => Along(k, LAPSED)
    case Released => Along(k, Ended(ByExpiry)) || Along(k, Ended(ByEarlyRelease))
    case Denied => false
  }

  predicate PostsFit(s: State, clock: Instant) {
    && OnceEach(s.marks, s.posts)
    && (forall i :: 0 <= i < |s.posts| ==> s.posts[i].requestId in s.reqs)
    && (forall id :: id in s.reqs ==> KindsFit(s.reqs[id], clock, KindsOf(s.posts, id)))
  }

  lemma Extend(k: seq<Kind>, path: seq<Kind>, x: Kind)
    requires Along(k, path)
    ensures Along(k, path + [x]) && Along(k + [x], path + [x])
  {
    var longer, k' := path + [x], k + [x];
    assert longer[..|longer| - 1] == path && k'[..|k'| - 1] == k;
  }

  lemma AlongWithout(k: seq<Kind>, path: seq<Kind>, x: Kind)
    requires Along(k, path + [x]) && x !in k
    ensures Along(k, path)
  {
    var longer := path + [x];
    assert longer[..|longer| - 1] == path;
  }

  lemma PathSteps()
    ensures [] + [PendingApprovers] == ASKED
    ensures ASKED + [ExpiredRequester] == LAPSED && ASKED + [ApprovedRequester] == GRANTED
    ensures forall reason :: GRANTED + [ReleasedRequester(reason)] == Ended(reason)
  {}

  lemma {:induction false} KindsOfNone(posts: seq<Mark>, id: string)
    requires forall i :: 0 <= i < |posts| ==> posts[i].requestId != id
    ensures KindsOf(posts, id) == []
  {
    if posts != [] {
      KindsOfNone(posts[..|posts| - 1], id);
    }
  }

  lemma {:induction false} KindsArePosts(posts: seq<Mark>, id: string)
    ensures forall k :: k in KindsOf(posts, id) <==> Mark(id, k) in posts
  {
    if posts != [] {
      var init, last := posts[..|posts| - 1], posts[|posts| - 1];
      KindsArePosts(init, id);
      assert posts == init + [last];
    }
  }

  lemma KindsOfAppended(posts: seq<Mark>, mark: Mark, id: string)
    ensures KindsOf(posts + [mark], id) == if mark.requestId == id then KindsOf(posts, id) + [mark.kind] else KindsOf(posts, id)
  {
    assert (posts + [mark])[..|posts|] == posts;
    assert KindsOf(posts, id) + [] == KindsOf(posts, id);
  }

  // ----- one row written and its notification tried -----

  // Whether the new status of a row lets `kind` be posted after what was posted before.
  lemma KindsStep(was: Request, r: Request, clock: Instant, clock': Instant, k: seq<Kind>, kind: Kind)
    requires KindsFit(was, clock, k) && clock <= clock' && SameIdentity(was, r)
    requires
      || (was.status == Pending && r.status == Approved && kind == ApprovedRequester && !Late(was.requestExpiresAt, clock'))
      || (was.status == Pending && r.status == Expired && kind == ExpiredRequester)
      || (was.status == Pending && r == was && kind == ExpiredRequester && Late(was.requestExpiresAt, clock'))
      || (was.status == Approved && r.status == Released && (kind == ReleasedRequester(ByExpiry) || kind == ReleasedRequester(ByEarlyRelease)))
    ensures KindsFit(r, clock', k)
    ensures kind !in k ==> KindsFit(r, clock', k + [kind])
  {
    hide Along;
    PathSteps();
    if was.status == Approved {
      Extend(k, GRANTED, ReleasedRequester(ByExpiry));
      Extend(k, GRANTED, ReleasedRequester(ByEarlyRelease));
    } else if Along(k, ASKED) {
      Extend(k, ASKED, ApprovedRequester);
      Extend(k, ASKED, ExpiredRequester);
    } else if kind !in k && kind == ExpiredRequester {
      AlongWithout(k, ASKED, ExpiredRequester);
      Extend(k, ASKED, ExpiredRequester);
    }
  }

  lemma KindsLater(r: Request, clock: Instant, clock': Instant, k: seq<Kind>)
    requires KindsFit(r, clock, k) && clock <= clock'
    ensures KindsFit(r, clock', k)
  {}

  // The row `r` replaces its old version and its notification of `kind` is tried.
  lemma RowNotified(cfg: Config, s: State, s1: State, clock: Instant, clock': Instant, r: Request, kind: Kind, up: bool)
    requires PostsFit(s, clock) && clock <= clock' && r.id in s.reqs
    requires s1.reqs == s.reqs[r.id := r] && s1.marks == s.marks && s1.posts == s.posts
    requires KindsFit(r, clock', KindsOf(s.posts, r.id))
    requires kind !in KindsOf(s.posts, r.id) ==> KindsFit(r, clock', KindsOf(s.posts, r.id) + [kind])
    ensures PostsFit(Notified(cfg, s1, Mark(r.id, kind), up), clock')
  {
    hide KindsFit, KindsOf;
    var mark := Mark(r.id, kind);
    var s' := Notified(cfg, s1, mark, up);
    forall id | id in s'.reqs ensures KindsFit(s'.reqs[id], clock', KindsOf(s'.posts, id)) {
      KindsOfAppended(s.posts, mark, id);
      if id != r.id {
        KindsLater(s.reqs[id], clock, clock', KindsOf(s.posts, id));
      } else if kind in KindsOf(s.posts, id) {
        KindsArePosts(s.posts, id);
      }
    }
  }

  lemma SameFits(s: State, s': State, clock: Instant, clock': Instant)
    requires PostsFit(s, clock) && clock <= clock'
    requires s'.reqs == s.reqs && s'.marks == s.marks && s'.posts == s.posts
    ensures PostsFit(s', clock')
  {
    hide KindsFit, KindsOf;
    forall id | id in s'.reqs ensures KindsFit(s'.reqs[id], clock', KindsOf(s'.posts, id)) {
      KindsLater(s.reqs[id], clock, clock', KindsOf(s.posts, id));
    }
  }

  // ----- operations -----

  lemma CreateFits(cfg: Config, s: State, clock: Instant, op: Op)
    requires PostsFit(s, clock) && op.CreateOp? && op.id !in s.reqs && clock <= op.now
    ensures PostsFit(Step(cfg, s, op), op.now)
  {
    hide TrimSpace, Appended, KindsOf, PostsFit;
    var s' := Step(cfg, s, op);
    if s'.reqs == s.reqs {
      SameFits(s, s', clock, op.now);
    } else {
      NewRowFits(s, s', clock, op.now, op.id);
    }
  }

  lemma NewRowFits(s: State, s': State, clock: Instant, clock': Instant, id: string)
    requires PostsFit(s, clock) && clock <= clock' && id !in s.reqs && id in s'.reqs
    requires s'.reqs == s.reqs[id := s'.reqs[id]] && s'.reqs[id].status == Pending
    requires || (s'.marks == s.marks && s'.posts == s.posts)
             || (Mark(id, PendingApprovers) !in s.marks && s'.marks == s.marks + {Mark(id, PendingApprovers)}
                 && s'.posts == s.posts + [Mark(id, PendingApprovers)])
    ensures PostsFit(s', clock')
  {
    hide KindsOf, Along;
    KindsOfNone(s.posts, id);
    forall q | q in s'.reqs ensures KindsFit(s'.reqs[q], clock', KindsOf(s'.posts, q)) {
      KindsOfAppended(s.posts, Mark(id, PendingApprovers), q);
      if q != id {
        KindsLater(s.reqs[q], clock, clock', KindsOf(s.posts, q));
      } else {
        PathSteps();
        NothingAlong(ASKED);
        NothingAlong([]);
        Extend([], [], PendingApprovers);
        assert [] + [PendingApprovers] == [PendingApprovers];
      }
    }
  }

  lemma NothingAlong(path: seq<Kind>)
    ensures Along([], path)
  {}

  lemma LateFits(cfg: Config, s: State, clock: Instant, now: Instant, r: Request, c: Calls)
    requires PostsFit(s, clock) && clock <= now && r.id in s.reqs && s.reqs[r.id] == r
    requires r.status == Pending && Late(r.requestExpiresAt, now)
    ensures PostsFit(ExpireLate(cfg, s, r, c), now)
  {
    hide KindsFit, KindsOf, Notified, Appended, PostsFit;
    var s1 := Logged(Written(s, ExpiredRow(r), c.write), Event(RequestExpired, "system", r, "expired before approve", false), c.audit);
    var k := KindsOf(s.posts, r.id);
    RowFits(s, clock, r.id);
    KindsStep(r, ExpiredRow(r), clock, now, k, ExpiredRequester);
    KindsStep(r, r, clock, now, k, ExpiredRequester);
    assert s.reqs[r.id := r] == s.reqs;
    RowNotified(cfg, s, s1, clock, now, s1.reqs[r.id], ExpiredRequester, c.mark);
  }

  lemma RowFits(s: State, clock: Instant, id: string)
    requires PostsFit(s, clock) && id in s.reqs
    ensures KindsFit(s.reqs[id], clock, KindsOf(s.posts, id))
  {}

  lemma GrantFits(cfg: Config, s: State, clock: Instant, now: Instant, r: Request, actor: string, notes: string, breakGlass: bool, c: Calls)
    requires PostsFit(s, clock) && clock <= now && r.id in s.reqs && s.reqs[r.id] == r
    requires r.status == Pending && !Late(r.requestExpiresAt, now)
    ensures PostsFit(Grant(cfg, s, r, actor, notes, now, breakGlass, c).state, now)
  {
    hide KindsFit, KindsOf, Notified, Appended, PostsFit;
    var r' := ApprovedRow(cfg, r, now, actor, notes);
    if c.group == Done && c.write {
      var s1 := Logged(Logged(Written(s.(active := AfterAdd(s.active, r.username, c.group)), r', c.write),
                              Event(RequestApproved, actor, r, "notes: " + notes, breakGlass), c.audit),
                       Event(GrantActive, actor, r, "user added to " + cfg.activeGroup, breakGlass), c.audit2);
      RowFits(s, clock, r.id);
      KindsStep(r, r', clock, now, KindsOf(s.posts, r.id), ApprovedRequester);
      RowNotified(cfg, s, s1, clock, now, r', ApprovedRequester, c.mark);
    } else {
      SameFits(s, Grant(cfg, s, r, actor, notes, now, breakGlass, c).state, clock, now);
    }
  }

  lemma EndFits(cfg: Config, s: State, clock: Instant, clock': Instant, r: Request, actor: string, action: Action, detail: string, c: Calls)
    requires PostsFit(s, clock) && clock <= clock' && r.id in s.reqs && s.reqs[r.id] == r && r.status == Approved
    requires action == EarlyRelease || action == GrantExpired
    ensures PostsFit(EndGrant(cfg, s, r, actor, action, detail, c), clock')
  {
    hide KindsFit, KindsOf, Notified, Appended, PostsFit;
    var r' := ReleasedRow(r, c.at);
    if Ends(s, r, c) {
      var s1 := Logged(Written(s.(active := AfterRemove(s.active, r.username, c.group)), r', c.write),
                       Event(action, actor, r, detail, false), c.audit);
      RowFits(s, clock, r.id);
      KindsStep(r, r', clock, clock', KindsOf(s.posts, r.id), ReleasedRequester(ReasonOf(action)));
      RowNotified(cfg, s, s1, clock, clock', r', ReleasedRequester(ReasonOf(action)), c.mark);
    } else {
      SameFits(s, EndGrant(cfg, s, r, actor, action, detail, c), clock, clock');
    }
  }

  lemma ExpireFits(cfg: Config, s: State, clock: Instant, r: Request, c: Calls)
    requires PostsFit(s, clock) && r.id in s.reqs && s.reqs[r.id] == r && r.status == Pending
    ensures PostsFit(ExpireOverdue(cfg, s, r, c), clock)
  {
    hide KindsFit, KindsOf, Notified, Appended, PostsFit;
    if c.write {
      var s1 := Logged(Written(s, ExpiredRow(r), c.write), Event(RequestExpired, "system", r, "request TTL elapsed", false), c.audit);
      RowFits(s, clock, r.id);
      KindsStep(r, ExpiredRow(r), clock, clock, KindsOf(s.posts, r.id), ExpiredRequester);
      RowNotified(cfg, s, s1, clock, clock, ExpiredRow(r), ExpiredRequester, c.mark);
    }
  }

  lemma TailHeld(reqs: map<string, Request>, reqs': map<string, Request>, batch: seq<Request>)
    requires Held(reqs, batch) && batch != []
    requires reqs' == reqs || (batch[0].id in reqs' && reqs' == reqs[batch[0].id := reqs'[batch[0].id]])
    ensures Held(reqs', batch[1..]) && batch[0].id in reqs && reqs[batch[0].id] == batch[0]
    ensures forall r :: r in batch[1..] ==> r in batch
  {
    assert batch[0] in batch;
    forall r | r in batch[1..] ensures r in batch && r.id != batch[0].id {
      var i :| 0 <= i < |batch[1..]| && batch[1..][i] == r;
      assert batch[i + 1] == r;
    }
  }

  lemma {:induction false} ExpireAllFits(cfg: Config, s: State, clock: Instant, batch: seq<Request>, row: string -> Calls)
    requires PostsFit(s, clock) && Held(s.reqs, batch) && forall r :: r in batch ==> r.status == Pending
    ensures PostsFit(ExpireAll(cfg, s, batch, row), clock)
    decreases |batch|
  {
    hide PostsFit, ExpireOverdue, Held;
    if batch != [] {
      var s1 := ExpireOverdue(cfg, s, batch[0], row(batch[0].id));
      TailHeld(s.reqs, s.reqs, batch);
      ExpireOverdueRow(cfg, s, batch[0], row(batch[0].id));
      TailHeld(s.reqs, s1.reqs, batch);
      assert batch[0] in batch;
      ExpireFits(cfg, s, clock, batch[0], row(batch[0].id));
      ExpireAllHead(cfg, s, batch, row);
      ExpireAllFits(cfg, s1, clock, batch[1..], row);
    }
  }

  lemma {:induction false} RevokeAllFits(cfg: Config, s: State, clock: Instant, batch: seq<Request>, row: string -> Calls)
    requires PostsFit(s, clock) && Held(s.reqs, batch) && forall r :: r in batch ==> r.status == Approved
    ensures PostsFit(RevokeAll(cfg, s, batch, row), clock)
    decreases |batch|
  {
    hide PostsFit, EndGrant, Held;
    if batch != [] {
      var s1 := EndGrant(cfg, s, batch[0], "system", GrantExpired, "active TTL elapsed; revoked", row(batch[0].id));
      TailHeld(s.reqs, s.reqs, batch);
      EndGrantRow(cfg, s, batch[0], "system", GrantExpired, "active TTL elapsed; revoked", row(batch[0].id));
      TailHeld(s.reqs, s1.reqs, batch);
      assert batch[0] in batch;
      EndFits(cfg, s, clock, clock, batch[0], "system", GrantExpired, "active TTL elapsed; revoked", row(batch[0].id));
      RevokeAllHead(cfg, s, batch, row);
      RevokeAllFits(cfg, s1, clock, batch[1..], row);
    }
  }

  lemma PassPostsFit(cfg: Config, s: State, clock: Instant, p: Pass)
    requires PostsFit(s, clock) && Keyed(s) && PassFits(s, p) && clock <= p.now
    ensures PostsFit(Reconcile(cfg, s, p), p.now)
  {
    hide PostsFit, ExpireAll, RevokeAll, Select, Due, Held;
    SameFits(s, s, clock, p.now);
    if p.query {
      BatchExact(s, p.plan, Pending, RequestExpiresAt, p.now);
      ExpireAllFits(cfg, s, p.now, PendingBatch(s, p), p.row);
      ExpirePhase(cfg, s, p);
      var s1 := ExpireAll(cfg, s, PendingBatch(s, p), p.row);
      if p.query2 {
        BatchExact(s1, p.plan2, Approved, ActiveExpiresAt, p.now);
        RevokeAllFits(cfg, s1, p.now, ActiveBatch(s1, p), p.row);
      }
    }
  }

  lemma StepPostsFit(cfg: Config, s: State, clock: Instant, op: Op)
    requires PostsFit(s, clock) && Keyed(s) && Admissible(cfg, s, clock, op)
    ensures PostsFit(Step(cfg, s, op), When(op, clock))
  {
    hide PostsFit, TrimSpace, Grant, ExpireLate, EndGrant, Reconcile;
    match op
    case CreateOp(_, _, _, _, _, _, _, _) => CreateFits(cfg, s, clock, op);
    case ApproveOp(actor, _, text, id, now, breakGlass, c) =>
      SameFits(s, s, clock, now);
      if id in s.reqs && s.reqs[id].status == Pending {
        if Late(s.reqs[id].requestExpiresAt, now) {
          LateFits(cfg, s, clock, now, s.reqs[id], c);
        } else {
          GrantFits(cfg, s, clock, now, s.reqs[id], actor, TrimSpace(text), breakGlass, c);
        }
      }
    case ReleaseOp(actor, _, id, c) =>
      SameFits(s, s, clock, c.at);
      if id in s.reqs && s.reqs[id].status == Approved {
        EndFits(cfg, s, clock, c.at, s.reqs[id], if actor == "" then "system" else actor, EarlyRelease, "removed from " + cfg.activeGroup, c);
      }
    case ReconcileOp(pass) => PassPostsFit(cfg, s, clock, pass);
    case SessionOp(_, _, _) =>
      hide Appended;
      SameFits(s, Step(cfg, s, op), clock, clock);
  }

  lemma {:induction false} RunPostsFit(cfg: Config, s: State, clock: Instant, ops: seq<Op>)
    requires Shaped(cfg, clock, s) && PostsFit(s, clock) && IsRun(cfg, s, clock, ops)
    ensures PostsFit(Run(cfg, s, clock, ops), EndOf(clock, ops))
    decreases |ops|
  {
    hide Step, When, PostsFit, WellShaped;
    if ops != [] {
      assert Keyed(s) by { ShapedIsKeyed(cfg, clock, s); }
      StepPostsFit(cfg, s, clock, ops[0]);
      StepAdvances(cfg, s, clock, ops[0]);
      RunPostsFit(cfg, Step(cfg, s, ops[0]), When(ops[0], clock), ops[1..]);
    }
  }

  lemma {:induction false} AlongIsShort(k: seq<Kind>, path: seq<Kind>)
    requires Along(k, path)
    ensures |k| <= |path|
  {
    if k != [] {
      if Along(k, path[..|path| - 1]) {
        AlongIsShort(k, path[..|path| - 1]);
      } else {
        AlongIsShort(k[..|k| - 1], path[..|path| - 1]);
      }
    }
  }

  // In every sequential run, whatever fails, no notification is posted twice, each request gets at
  // most three, and they lie along one path: asked and lapsed, or asked, granted and ended.
  lemma RequestPostsFollowOnePath(cfg: Config, start: Instant, ops: seq<Op>, id: string)
    requires IsRun(cfg, EMPTY, start, ops)
    ensures var s := Run(cfg, EMPTY, start, ops); var k := KindsOf(s.posts, id);
            && OnceEach(s.marks, s.posts) && |k| <= 3
            && (Along(k, LAPSED) || Along(k, Ended(ByExpiry)) || Along(k, Ended(ByEarlyRelease)))
  {
    hide Run, IsRun, KindsOf, Along;
    RunPostsFit(cfg, EMPTY, start, ops);
    var s := Run(cfg, EMPTY, start, ops);
    var k := KindsOf(s.posts, id);
    if id in s.reqs {
      FitsOnePath(s.reqs[id], EndOf(start, ops), k);
    } else {
      KindsOfNone(s.posts, id);
      NothingAlong(LAPSED);
    }
  }

  lemma FitsOnePath(r: Request, clock: Instant, k: seq<Kind>)
    requires KindsFit(r, clock, k)
    ensures |k| <= 3 && (Along(k, LAPSED) || Along(k, Ended(ByExpiry)) || Along(k, Ended(ByEarlyRelease)))
  {
    hide Along;
    PathSteps();
    if Along(k, ASKED) {
      Extend(k, ASKED, ExpiredRequester);
    }
    if Along(k, GRANTED) {
      Extend(k, GRANTED, ReleasedRequester(ByExpiry));
    }
    if Along(k, LAPSED) {
      AlongIsShort(k, LAPSED);
    } else if Along(k, Ended(ByExpiry)) {
      AlongIsShort(k, Ended(ByExpiry));
    } else {
      AlongIsShort(k, Ended(ByEarlyRelease));
    }
  }
}
