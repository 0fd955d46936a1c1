/** What one Reconcile pass does, row by row, whatever order the rows come in and whichever calls fail. */
module Sweep {
  import opened Wrappers
  import opened Timestamp
  import opened Deadlines
  import opened Requests
  import opened Storage
  import opened AuditView
  import opened Protocol

  // Every request is kept under its own id.
  predicate Keyed(s: State) {
    forall id :: id in s.reqs ==> s.reqs[id].id == id
  }

  ghost predicate PassFits(s: State, p: Pass) {
    Enumerates(p.plan, s.reqs.Keys) && Enumerates(p.plan2, s.reqs.Keys)
  }

  predicate PendingOverdue(r: Request, now: Instant) {
    Matches(r, Pending, RequestExpiresAt, now)
  }

  predicate ActiveOverdue(r: Request, now: Instant) {
    Matches(r, Approved, ActiveExpiresAt, now)
  }

  predicate Overdue(r: Request, now: Instant) {
    PendingOverdue(r, now) || ActiveOverdue(r, now)
  }

  function OverdueIds(reqs: map<string, Request>, now: Instant): set<string> {
    set id | id in reqs && Overdue(reqs[id], now)
  }

  // All the calls this row's turn needs succeed.
  predicate RowSucceeds(r: Request, p: Pass) {
    var c := p.row(r.id);
    if PendingOverdue(r, p.now) then p.query && c.write
    else ActiveOverdue(r, p.now) && p.query && p.query2 && c.group == Done && c.write
  }

  function RowAfter(r: Request, p: Pass): Request {
    if !RowSucceeds(r, p) then r
    else if r.status == Pending then ExpiredRow(r)
    else ReleasedRow(r, p.row(r.id).at)
  }

  // The users whose membership the pass removes.
  function RemovedUsers(reqs: map<string, Request>, p: Pass): set<string> {
    set id | id in reqs && p.query && p.query2 && ActiveOverdue(reqs[id], p.now) && p.row(reqs[id].id).group != Refused :: reqs[id].username
  }

  // ----- batches -----

  function Ids(batch: seq<Request>): set<string> {
    set r | r in batch :: r.id
  }

  // The batch holds rows of the table, each once.
  predicate Held(reqs: map<string, Request>, batch: seq<Request>) {
    && (forall r :: r in batch ==> r.id in reqs && reqs[r.id] == r)
    && (forall i, j :: 0 <= i < j < |batch| ==> batch[i].id != batch[j].id)
  }

  function BatchUsers(batch: seq<Request>, row: string -> Calls): set<string> {
    set r | r in batch && row(r.id).group != Refused :: r.username
  }

  lemma InitHeld(reqs: map<string, Request>, batch: seq<Request>)
    requires Held(reqs, batch) && batch != []
    ensures var init, last := batch[..|batch| - 1], batch[|batch| - 1];
            && Held(reqs, init) && last.id !in Ids(init) && Ids(batch) == Ids(init) + {last.id}
            && last.id in reqs && reqs[last.id] == last
  {
    var init, last := batch[..|batch| - 1], batch[|batch| - 1];
    assert batch == init + [last];
    assert last in batch;
  }

  lemma NoIds()
    ensures Ids([]) == {}
  {}

  lemma LastUser(batch: seq<Request>, row: string -> Calls)
    requires batch != []
    ensures var last := batch[|batch| - 1];
            BatchUsers(batch, row) == BatchUsers(batch[..|batch| - 1], row) + (if row(last.id).group != Refused then {last.username} else {})
  {
    assert batch == batch[..|batch| - 1] + [batch[|batch| - 1]];
  }

  lemma ExpireOverdueRow(cfg: Config, s: State, r: Request, c: Calls)
    requires r.id in s.reqs
    ensures var s' := ExpireOverdue(cfg, s, r, c);
            s'.active == s.active && s'.reqs == if c.write then s.reqs[r.id := ExpiredRow(r)] else s.reqs
  {
    hide Appended;
  }

  lemma EndGrantRow(cfg: Config, s: State, r: Request, actor: string, action: Action, detail: string, c: Calls)
    requires r.id in s.reqs
    ensures var s' := EndGrant(cfg, s, r, actor, action, detail, c);
            && s'.active == s.active - (if c.group != Refused then {r.username} else {})
            && s'.reqs == if c.group == Done && c.write then s.reqs[r.id := ReleasedRow(r, c.at)] else s.reqs
  {
    hide Appended;
  }

  lemma {:induction false} ExpireAllExact(cfg: Config, s: State, batch: seq<Request>, row: string -> Calls)
    requires Held(s.reqs, batch)
    ensures var s' := ExpireAll(cfg, s, batch, row);
            && s'.active == s.active
            && forall id :: id in s.reqs ==>
                 s'.reqs[id] == if id in Ids(batch) && row(id).write then ExpiredRow(s.reqs[id]) else s.reqs[id]
  {
    hide ExpireOverdue, Held, Ids, ExpiredRow;
    if batch != [] {
      var init, last := batch[..|batch| - 1], batch[|batch| - 1];
      InitHeld(s.reqs, batch);
      ExpireAllExact(cfg, s, init, row);
      ExpireOverdueRow(cfg, ExpireAll(cfg, s, init, row), last, row(last.id));
    } else {
      NoIds();
    }
  }

  lemma {:induction false} RevokeAllExact(cfg: Config, s: State, batch: seq<Request>, row: string -> Calls)
    requires Held(s.reqs, batch)
    ensures var s' := RevokeAll(cfg, s, batch, row);
            && s'.active == s.active - BatchUsers(batch, row)
            && forall id :: id in s.reqs ==>
                 s'.reqs[id] == if id in Ids(batch) && row(id).group == Done && row(id).write
                                then ReleasedRow(s.reqs[id], row(id).at) else s.reqs[id]
  {
    hide EndGrant, Held, Ids, ReleasedRow;
    if batch != [] {
      var init, last := batch[..|batch| - 1], batch[|batch| - 1];
      InitHeld(s.reqs, batch);
      RevokeAllExact(cfg, s, init, row);
      EndGrantRow(cfg, RevokeAll(cfg, s, init, row), last, "system", GrantExpired, "active TTL elapsed; revoked", row(last.id));
      LastUser(batch, row);
    } else {
      NoIds();
      assert BatchUsers(batch, row) == {};
    }
  }

  lemma BatchExact(s: State, plan: seq<string>, status: Status, col: Column, now: Instant)
    requires Keyed(s) && Enumerates(plan, s.reqs.Keys)
    ensures var batch := Select(s.reqs, plan, status, col, now);
            && Held(s.reqs, batch)
            && (forall id :: id in Ids(batch) <==> id in s.reqs && Matches(s.reqs[id], status, col, now))
            && forall r :: r in batch <==> r.id in s.reqs && s.reqs[r.id] == r && Matches(r, status, col, now)
  {
    hide Matches;
    SelectExact(s.reqs, plan, status, col, now);
    var batch := Select(s.reqs, plan, status, col, now);
    forall id | id in s.reqs && Matches(s.reqs[id], status, col, now) ensures id in Ids(batch) {
      assert s.reqs[id] in batch;
    }
  }

  // ----- the whole pass -----

  lemma ExpirePhase(cfg: Config, s: State, p: Pass)
    requires Keyed(s) && PassFits(s, p) && p.query
    ensures var s1 := ExpireAll(cfg, s, PendingBatch(s, p), p.row);
            && s1.active == s.active && Keyed(s1) && PassFits(s1, p)
            && forall id :: id in s.reqs ==>
                 s1.reqs[id] == if PendingOverdue(s.reqs[id], p.now) && p.row(id).write then ExpiredRow(s.reqs[id]) else s.reqs[id]
  {
    hide Matches, Held, Ids, ExpireAll, Select;
    BatchExact(s, p.plan, Pending, RequestExpiresAt, p.now);
    ExpireAllExact(cfg, s, PendingBatch(s, p), p.row);
  }

  lemma RevokePhase(cfg: Config, s: State, p: Pass)
    requires Keyed(s) && PassFits(s, p) && p.query && p.query2
    ensures var s1 := RevokeAll(cfg, s, ActiveBatch(s, p), p.row);
            && s1.active == s.active - RemovedUsers(s.reqs, p)
            && forall id :: id in s.reqs ==>
                 s1.reqs[id] == if ActiveOverdue(s.reqs[id], p.now) && p.row(id).group == Done && p.row(id).write
                                then ReleasedRow(s.reqs[id], p.row(id).at) else s.reqs[id]
  {
    hide Matches, Held, Ids, RevokeAll, Select, BatchUsers, RemovedUsers;
    BatchExact(s, p.plan2, Approved, ActiveExpiresAt, p.now);
    RevokeAllExact(cfg, s, ActiveBatch(s, p), p.row);
    BatchUsersExact(s, p, ActiveBatch(s, p));
  }

  lemma BatchUsersExact(s: State, p: Pass, batch: seq<Request>)
    requires Keyed(s) && p.query && p.query2
    requires forall r :: r in batch <==> r.id in s.reqs && s.reqs[r.id] == r && ActiveOverdue(r, p.now)
    ensures BatchUsers(batch, p.row) == RemovedUsers(s.reqs, p)
  {
    hide ActiveOverdue;
    forall u | u in RemovedUsers(s.reqs, p) ensures u in BatchUsers(batch, p.row) {
      var id :| id in s.reqs && ActiveOverdue(s.reqs[id], p.now) && p.row(s.reqs[id].id).group != Refused && s.reqs[id].username == u;
      assert s.reqs[id] in batch;
    }
    forall u | u in BatchUsers(batch, p.row) ensures u in RemovedUsers(s.reqs, p) {
      var r :| r in batch && p.row(r.id).group != Refused && r.username == u;
      assert r.id in s.reqs;
    }
  }

  // Fault isolation: exactly the selected rows whose calls all succeeded change, each to its one
  // next status; every other row is untouched, and the order of the rows does not matter.
  lemma ReconcileExact(cfg: Config, s: State, p: Pass)
    requires Keyed(s) && PassFits(s, p)
    ensures var s' := Reconcile(cfg, s, p);
            && s'.active == s.active - RemovedUsers(s.reqs, p)
            && forall id :: id in s.reqs ==> s'.reqs[id] == RowAfter(s.reqs[id], p)
  {
    hide Due, ExpireAll, RevokeAll, Select, RemovedUsers;
    if p.query {
      ExpirePhase(cfg, s, p);
      var s1 := ExpireAll(cfg, s, PendingBatch(s, p), p.row);
      SameRemovals(s.reqs, s1.reqs, p);
      if p.query2 {
        RevokePhase(cfg, s1, p);
      } else {
        NoRemovals(s.reqs, p);
      }
    } else {
      NoRemovals(s.reqs, p);
    }
  }

  lemma NoRemovals(reqs: map<string, Request>, p: Pass)
    requires !p.query || !p.query2
    ensures RemovedUsers(reqs, p) == {}
  {}

  lemma SameRemovals(a: map<string, Request>, b: map<string, Request>, p: Pass)
    requires a.Keys == b.Keys
    requires forall id :: id in a ==> ActiveOverdue(a[id], p.now) == ActiveOverdue(b[id], p.now)
    requires forall id :: id in a ==> a[id].username == b[id].username && a[id].id == b[id].id
    ensures RemovedUsers(a, p) == RemovedUsers(b, p)
  {
    hide ActiveOverdue;
  }

  // What a pass does to a request by the clock: a second or more past its deadline it is ended, whatever
  // happens to other rows, if its own calls succeed; a second or more before it is left alone.
  lemma PassByTheClock(cfg: Config, s: State, p: Pass, id: string)
    requires Keyed(s) && PassFits(s, p) && id in s.reqs && Storable(s.reqs[id]) && InRange(p.now)
    ensures var r, r', c := s.reqs[id], Reconcile(cfg, s, p).reqs[id], p.row(id);
            match r.status
            case Pending =>
              && (r.requestExpiresAt + SECOND <= p.now && p.query && c.write ==> r' == r.(status := Expired))
              && (p.now + SECOND <= r.requestExpiresAt || !p.query || !c.write ==> r' == r)
            case Approved =>
              && (r.activeExpiresAt.Some? && r.activeExpiresAt.value + SECOND <= p.now && p.query && p.query2 && c.group == Done ==>
                    && r.username !in Reconcile(cfg, s, p).active
                    && (c.write ==> r' == r.(status := Released, releasedAt := Some(c.at))))
              && (r.activeExpiresAt == None || p.now + SECOND <= r.activeExpiresAt.value ==> r' == r)
              && (!p.query || !p.query2 || c.group != Done || !c.write ==> r' == r)
            case _ => r' == r
  {
    hide Due, Reconcile, PassFits;
    var r := s.reqs[id];
    ReconcileExact(cfg, s, p);
    DueOutsideOneSecond(r.requestExpiresAt, p.now);
    if r.activeExpiresAt.Some? {
      DueOutsideOneSecond(r.activeExpiresAt.value, p.now);
    }
  }

  lemma RowAfterStatus(r: Request, p: Pass)
    ensures RowAfter(r, p).id == r.id && RowAfter(r, p).username == r.username
    ensures RowSucceeds(r, p) ==> Overdue(r, p.now) && RowAfter(r, p).status in {Expired, Released}
    ensures RowAfter(r, p).status == r.status <==> !RowSucceeds(r, p)
    ensures !RowSucceeds(r, p) ==> RowAfter(r, p) == r
  {
    hide Due;
  }

  function Succeeded(s: State, p: Pass): set<string> {
    set id | id in s.reqs && RowSucceeds(s.reqs[id], p)
  }

  // Progress: a pass takes off the overdue rows exactly those it succeeded on.
  lemma ReconcileProgress(cfg: Config, s: State, p: Pass)
    requires Keyed(s) && PassFits(s, p)
    ensures var left := OverdueIds(Reconcile(cfg, s, p).reqs, p.now);
            && Succeeded(s, p) <= OverdueIds(s.reqs, p.now)
            && left == OverdueIds(s.reqs, p.now) - Succeeded(s, p)
            && |left| == |OverdueIds(s.reqs, p.now)| - |Succeeded(s, p)|
  {
    ReconcileExact(cfg, s, p);
    var s' := Reconcile(cfg, s, p);
    forall id | id in s.reqs
      ensures Overdue(s'.reqs[id], p.now) <==> Overdue(s.reqs[id], p.now) && !RowSucceeds(s.reqs[id], p)
      ensures RowSucceeds(s.reqs[id], p) ==> Overdue(s.reqs[id], p.now)
    {
      hide Due, Reconcile;
      RowAfterStatus(s.reqs[id], p);
    }
    hide *;
    OverdueLeft(s, s', p);
  }

  lemma OverdueLeft(s: State, s': State, p: Pass)
    requires s'.reqs.Keys == s.reqs.Keys
    requires forall id :: id in s.reqs ==> (Overdue(s'.reqs[id], p.now) <==> Overdue(s.reqs[id], p.now) && !RowSucceeds(s.reqs[id], p))
    requires forall id :: id in s.reqs ==> RowSucceeds(s.reqs[id], p) ==> Overdue(s.reqs[id], p.now)
    ensures var left := OverdueIds(s'.reqs, p.now);
            && Succeeded(s, p) <= OverdueIds(s.reqs, p.now)
            && left == OverdueIds(s.reqs, p.now) - Succeeded(s, p)
            && |left| == |OverdueIds(s.reqs, p.now)| - |Succeeded(s, p)|
  {
    hide Overdue, RowSucceeds;
    assert OverdueIds(s'.reqs, p.now) == OverdueIds(s.reqs, p.now) - Succeeded(s, p);
    SubsetSize(Succeeded(s, p), OverdueIds(s.reqs, p.now));
  }

  lemma SubsetSize(a: set<string>, b: set<string>)
    requires a <= b
    ensures |b - a| == |b| - |a|
  {
    assert b == a + (b - a);
  }

  predicate FaultlessPass(p: Pass, reqs: map<string, Request>) {
    p.query && p.query2 && forall id :: id in reqs ==> Faultless(p.row(id))
  }

  // After a pass without faults nothing is overdue at its time.
  lemma CleanPassSettles(cfg: Config, s: State, p: Pass)
    requires Keyed(s) && PassFits(s, p) && FaultlessPass(p, s.reqs)
    ensures OverdueIds(Reconcile(cfg, s, p).reqs, p.now) == {}
    ensures Keyed(Reconcile(cfg, s, p))
  {
    ReconcileExact(cfg, s, p);
    ReconcileProgress(cfg, s, p);
    forall id | id in s.reqs ensures RowAfter(s.reqs[id], p).id == id {
      hide Due;
    }
    forall id | id in OverdueIds(s.reqs, p.now) ensures id in Succeeded(s, p) {
      hide Due, Reconcile;
    }
  }

  // So a second pass at the same time, however its calls turn out, changes nothing at all.
  lemma SecondPassIsIdle(cfg: Config, s: State, p: Pass, q: Pass)
    requires Keyed(s) && PassFits(s, p) && FaultlessPass(p, s.reqs)
    requires q.now == p.now && PassFits(Reconcile(cfg, s, p), q)
    ensures Reconcile(cfg, Reconcile(cfg, s, p), q) == Reconcile(cfg, s, p)
  {
    CleanPassSettles(cfg, s, p);
    SettledIsIdle(cfg, Reconcile(cfg, s, p), q);
  }

  lemma SettledIsIdle(cfg: Config, s: State, q: Pass)
    requires Keyed(s) && PassFits(s, q) && OverdueIds(s.reqs, q.now) == {}
    ensures Reconcile(cfg, s, q) == s
  {
    forall id | id in s.reqs ensures !Overdue(s.reqs[id], q.now) {
      assert id !in OverdueIds(s.reqs, q.now);
    }
    hide Matches;
    BatchExact(s, q.plan, Pending, RequestExpiresAt, q.now);
    BatchExact(s, q.plan2, Approved, ActiveExpiresAt, q.now);
    SomeoneHeld(PendingBatch(s, q));
    SomeoneHeld(ActiveBatch(s, q));
  }

  lemma SomeoneHeld(batch: seq<Request>)
    ensures batch == [] || exists r :: r in batch
  {
    if batch != [] {
      assert batch[0] in batch;
    }
  }
}
