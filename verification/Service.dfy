/** The handlers, step by step over the store, the group and the notifier, against Protocol. */
module Service {
  import opened Wrappers
  import opened Text
  import opened Timestamp
  import opened Requests
  import opened AuditView
  import opened Storage
  import opened Protocol
  import Sweep
  import Runs
  import Lifecycle

  ghost predicate SameRows(was: map<string, Request>, reqs: map<string, Request>) {
    was.Keys == reqs.Keys && forall id :: id in was ==> SameIdentity(was[id], reqs[id])
  }

  ghost predicate Stored(reqs: map<string, Request>, batch: seq<Request>) {
    forall r :: r in batch ==> Storable(r) && r.id in reqs && reqs[r.id] == r
  }

  lemma SameRowsRefl(reqs: map<string, Request>)
    ensures SameRows(reqs, reqs)
  {}

  lemma SameRowsTrans(a: map<string, Request>, b: map<string, Request>, c: map<string, Request>)
    requires SameRows(a, b) && SameRows(b, c)
    ensures SameRows(a, c)
  {}

  lemma StoredRow(was: map<string, Request>, reqs: map<string, Request>, batch: seq<Request>, i: nat)
    requires Stored(was, batch) && SameRows(was, reqs) && i < |batch|
    ensures Storable(batch[i]) && batch[i].id in reqs && SameIdentity(reqs[batch[i].id], batch[i])
  {
    assert batch[i] in batch;
  }

  lemma ExpireNone(cfg: Config, s: State, row: string -> Calls)
    ensures ExpireAll(cfg, s, [], row) == s
  {}

  lemma RevokeNone(cfg: Config, s: State, row: string -> Calls)
    ensures RevokeAll(cfg, s, [], row) == s
  {}

  lemma ExpireAllStep(cfg: Config, s: State, batch: seq<Request>, i: nat, row: string -> Calls)
    requires i < |batch|
    ensures ExpireAll(cfg, s, batch[..i + 1], row) ==
            ExpireOverdue(cfg, ExpireAll(cfg, s, batch[..i], row), batch[i], row(batch[i].id))
  {
    assert batch[..i + 1][..i] == batch[..i];
  }

  lemma RevokeAllStep(cfg: Config, s: State, batch: seq<Request>, i: nat, row: string -> Calls)
    requires i < |batch|
    ensures RevokeAll(cfg, s, batch[..i + 1], row) ==
            EndGrant(cfg, RevokeAll(cfg, s, batch[..i], row), batch[i], "system", GrantExpired, "active TTL elapsed; revoked", row(batch[i].id))
  {
    assert batch[..i + 1][..i] == batch[..i];
  }

  lemma {:induction false} BatchIsStored(rows: map<string, Row>, plan: seq<string>, status: Status, col: Column, now: Instant)
    requires Sound(rows) && forall id :: id in plan ==> id in rows
    ensures var batch := Select(Decoded(rows), plan, status, col, now);
            Stored(Decoded(rows), batch)
  {
    hide Matches, Storable, Insert, Scan;
    if plan != [] {
      BatchIsStored(rows, plan[..|plan| - 1], status, col, now);
      DecodedRow(rows, plan[|plan| - 1]);
    }
  }

  // The stored event reads back with this time.
  predicate Stamped(row: AuditRow, at: Instant) {
    ScanEntry(row).Success? && ScanEntry(row).value.at == at
  }

  // Membership of the active group, as the server keeps it.
  class Groups {
    var active: set<string>

    constructor ()
      ensures active == {}
    {
      active := {};
    }

    method AddToGroup(user: string, outcome: GroupOutcome) returns (ok: bool)
      modifies this
      ensures active == AfterAdd(old(active), user, outcome)
      ensures ok == (outcome == Done)
    {
      if outcome != Refused {
        active := active + {user};
      }
      ok := outcome == Done;
    }

    method RemoveFromGroup(user: string, outcome: GroupOutcome) returns (ok: bool)
      modifies this
      ensures active == AfterRemove(old(active), user, outcome)
      ensures ok == (outcome == Done)
    {
      if outcome != Refused {
        active := active - {user};
      }
      ok := outcome == Done;
    }
  }

  class Notifier {
    const enabled: bool
    const db: Store
    var posts: seq<Mark>

    constructor (enabled: bool, db: Store)
      ensures this.enabled == enabled && this.db == db && posts == []
    {
      this.enabled := enabled;
      this.db := db;
      posts := [];
    }

    // Marks first, then posts; `delivered` is the webhook's answer. Returns whether a post arrived.
    method NotifyOnce(mark: Mark, up: bool, delivered: bool) returns (sent: bool)
      modifies this, db`marks
      ensures var first := enabled && up && mark !in old(db.marks);
              && posts == (if first then old(posts) + [mark] else old(posts))
              && db.marks == (if first then old(db.marks) + {mark} else old(db.marks))
              && sent == (first && delivered)
    {
      if !enabled {
        return false;
      }
      var first := db.TryMarkNotified(mark, up);
      if first.Failure? {
        return false;
      }
      if !first.value {
        return false;
      }
      posts := posts + [mark];
      sent := delivered;
    }
  }

  class Service {
    const cfg: Config
    const db: Store
    const kc: Groups
    const notify: Notifier

    constructor (cfg: Config, db: Store, kc: Groups, notify: Notifier)
      requires db.Valid() && notify.db == db && notify.enabled == cfg.notifications
      ensures Valid() && this.cfg == cfg && this.db == db && this.kc == kc && this.notify == notify
      ensures View() == State(db.Contents(), kc.active, db.Log(), db.marks, notify.posts)
    {
      this.cfg := cfg;
      this.db := db;
      this.kc := kc;
      this.notify := notify;
    }

    ghost predicate Valid()
      reads this, db, notify
    {
      db.Valid() && notify.db == db && notify.enabled == cfg.notifications
    }

    ghost function View(): State
      reads this, db, kc, notify
      requires Valid()
    {
      State(db.Contents(), kc.active, db.Log(), db.marks, notify.posts)
    }

    lemma ViewIsKeyed()
      requires Valid()
      ensures Sweep.Keyed(View())
    {
      hide RowSound, Scan, Insert, Storable;
      forall id | id in db.rows ensures View().reqs[id].id == id {
        DecodedRow(db.rows, id);
      }
    }

    // What is appended carries the time of the append; whether it was is reported.
    method Audit(action: Action, actor: string, r: Request, detail: string, breakGlass: bool, now: Stamp, up: bool) returns (ok: bool)
      requires Valid()
      modifies db`events
      ensures Valid() && ok == up && View() == Logged(old(View()), Event(action, actor, r, detail, breakGlass), up)
      ensures up ==> db.events != [] && Stamped(db.events[|db.events| - 1], now)
    {
      hide Sound, RowSound, Scan, Insert, Decoded, Numbered, EntriesSound, Events, Appended, TrimSpace, Size, Parse, ScanEntry;
      var event := AuditEvent(0, action, actor, r.username, r.id, r.justification, detail, breakGlass);
      ok := db.AppendAudit(Timed(event, UNSET), now, up);
    }

    method Notify(r: Request, kind: Kind, up: bool)
      requires Valid()
      modifies db`marks, notify
      ensures Valid() && View() == Notified(cfg, old(View()), Mark(r.id, kind), up)
    {
      hide Sound, RowSound, Scan, Insert, Decoded, Numbered, EntriesSound, Events, Appended, TrimSpace, Size;
      var delivered: bool := *;
      var _ := notify.NotifyOnce(Mark(r.id, kind), up, delivered);
    }

    method HandleMe(actor: string, breakGlass: bool, up: bool) returns (outcome: Outcome)
      requires Valid()
      modifies db`events
      ensures Valid() && View() == Session(old(View()), actor, breakGlass, up)
      ensures outcome == if actor == "" then Unauthorized else Ok
    {
      hide Sound, RowSound, Scan, Insert, Decoded, Numbered, EntriesSound, Events, Appended;
      if actor == "" {
        return Unauthorized;
      }
      if breakGlass {
        var now: Stamp := *;
        var _ := db.AppendAudit(Timed(SessionEvent(actor), UNSET), now, up);
      }
      outcome := Ok;
    }

    method HandleCreate(actor: string, username: string, justification: string, eligible: Answer,
                        id: string, now: Instant, breakGlass: bool, c: Calls) returns (outcome: Outcome)
      requires Valid() && InRange(now) && InRange(now + cfg.requestTTL)
      modifies db, notify
      ensures Valid()
      ensures Reply(View(), outcome) ==
              Create(cfg, old(View()), actor, username, justification, eligible, id, now, breakGlass, c)
      ensures Lifecycle.CreatedTruly(old(View()), Reply(View(), outcome),
                                     Runs.CreateOp(actor, username, justification, eligible, id, now, breakGlass, c))
    {
      hide Sound, RowSound, Scan, Insert, Decoded, Numbered, EntriesSound, Events, Appended, TrimSpace, Size, Lifecycle.CreatedTruly, Logged, Notified;
      Lifecycle.CreateAnswersTruly(cfg, View(), Runs.CreateOp(actor, username, justification, eligible, id, now, breakGlass, c));
      var user, reason := TrimSpace(username), TrimSpace(justification);
      if user == "" {
        user := actor;
      }
      if user == "" || reason == "" {
        return BadRequest;
      }
      if Size(reason) < MIN_JUSTIFICATION {
        return BadRequest;
      }
      if actor != "" && actor != user {
        return Forbidden;
      }
      if eligible.Unavailable? {
        return BadGateway;
      }
      if eligible.No? {
        return Forbidden;
      }
      var req := Request(id, user, reason, Pending, now, now + cfg.requestTTL, None, "", "", None, None);
      var ok := db.Create(req, c.write);
      if !ok {
        return InternalError;
      }
      var at: Stamp := *;
      var _ := Audit(RequestCreated, actor, req, "pending elevation request", breakGlass, at, c.audit);
      Notify(req, PendingApprovers, c.mark);
      outcome := Created;
    }

    method HandleApprove(actor: string, permanent: Answer, text: string, id: string,
                         now: Instant, breakGlass: bool, c: Calls) returns (outcome: Outcome)
      requires Valid() && InRange(now) && InRange(now + cfg.activeTTL)
      modifies db, kc, notify
      ensures Valid()
      ensures Reply(View(), outcome) == Approve(cfg, old(View()), actor, permanent, text, id, now, breakGlass, c)
      ensures Lifecycle.ApprovedTruly(old(View()), Reply(View(), outcome), Runs.ApproveOp(actor, permanent, text, id, now, breakGlass, c))
    {
      hide Sound, RowSound, Scan, Insert, Decoded, Numbered, EntriesSound, Events, Appended, TrimSpace, Size, Lifecycle.ApprovedTruly, Grant, ExpireLate;
      ViewIsKeyed();
      Lifecycle.ApproveAnswersTruly(cfg, View(), Runs.ApproveOp(actor, permanent, text, id, now, breakGlass, c));
      if actor == "" {
        return Unauthorized;
      }
      if permanent.Unavailable? {
        return BadGateway;
      }
      if permanent.No? {
        return Forbidden;
      }
      var notes := TrimSpace(text);
      if notes == "" {
        return BadRequest;
      }
      if Size(notes) < MIN_NOTES {
        return BadRequest;
      }
      var found := db.Get(id, c.read);
      if found.Failure? {
        return NotFound;
      }
      var req := found.value;
      DecodedRow(db.rows, id);
      if req.status != Pending {
        return Conflict;
      }
      if now > req.requestExpiresAt {
        ExpireRequest(req, c);
        return Conflict;
      }
      outcome := GrantRequest(req, actor, notes, now, breakGlass, c);
    }

    // The outcome of the write is ignored.
    method ExpireRequest(r: Request, c: Calls)
      requires Valid() && Storable(r) && r.id in db.Contents() && SameIdentity(db.Contents()[r.id], r)
      modifies db, notify
      ensures Valid() && View() == ExpireLate(cfg, old(View()), r, c)
    {
      hide Sound, RowSound, Scan, Insert, Decoded, Numbered, EntriesSound, Events, Appended, TrimSpace, Size, Logged, Notified;
      var req := r.(status := Expired);
      var _ := db.Update(req, c.write);
      var at: Stamp := *;
      var _ := Audit(RequestExpired, "system", req, "expired before approve", false, at, c.audit);
      Notify(req, ExpiredRequester, c.mark);
    }

    method GrantRequest(r: Request, actor: string, notes: string, now: Instant, breakGlass: bool, c: Calls)
      returns (outcome: Outcome)
      requires Valid() && Storable(r) && InRange(now) && InRange(now + cfg.activeTTL)
      requires r.id in db.Contents() && SameIdentity(db.Contents()[r.id], r)
      modifies db, kc, notify
      ensures Valid()
      ensures Reply(View(), outcome) == Grant(cfg, old(View()), r, actor, notes, now, breakGlass, c)
    {
      hide Sound, RowSound, Scan, Insert, Decoded, Numbered, EntriesSound, Events, Appended, TrimSpace, Size, Logged, Notified;
      var added := kc.AddToGroup(r.username, c.group);
      if !added {
        return BadGateway;
      }
      var expires := now + cfg.activeTTL;
      var req := r.(status := Approved);
      req := req.(approvedAt := Some(now));
      req := req.(approvedBy := actor);
      req := req.(approvalNotes := notes);
      req := req.(activeExpiresAt := Some(expires));
      var ok := db.Update(req, c.write);
      if !ok {
        return InternalError;
      }
      var at: Stamp := *;
      var _ := Audit(RequestApproved, actor, req, "notes: " + notes, breakGlass, at, c.audit);
      at := *;
      var _ := Audit(GrantActive, actor, req, "user added to " + cfg.activeGroup, breakGlass, at, c.audit2);
      Notify(req, ApprovedRequester, c.mark);
      outcome := Ok;
    }

    method HandleRelease(actor: string, permanent: Answer, id: string, c: Calls) returns (outcome: Outcome)
      requires Valid() && InRange(c.at)
      modifies db, kc, notify
      ensures Valid()
      ensures Reply(View(), outcome) == Release(cfg, old(View()), actor, permanent, id, c)
      ensures Lifecycle.ReleasedTruly(old(View()), Reply(View(), outcome), Runs.ReleaseOp(actor, permanent, id, c))
    {
      hide Sound, RowSound, Scan, Insert, Decoded, Numbered, EntriesSound, Events, Appended, TrimSpace, Size, Lifecycle.ReleasedTruly;
      ViewIsKeyed();
      Lifecycle.ReleaseAnswersTruly(cfg, View(), Runs.ReleaseOp(actor, permanent, id, c));
      var found := db.Get(id, c.read);
      if found.Failure? {
        return NotFound;
      }
      var req := found.value;
      DecodedRow(db.rows, id);
      if req.status != Approved {
        return Conflict;
      }
      if actor != "" && actor != req.username {
        if permanent.Unavailable? {
          return BadGateway;
        }
        if permanent.No? {
          return Forbidden;
        }
      }
      var ok := ReleaseGrant(req, actor, EarlyRelease, c);
      outcome := if ok then Ok else BadGateway;
    }

    method ReleaseGrant(r: Request, actor: string, action: Action, c: Calls) returns (ok: bool)
      requires Valid() && InRange(c.at) && Storable(r)
      requires r.id in db.Contents() && SameIdentity(db.Contents()[r.id], r)
      modifies db, kc, notify
      ensures Valid()
      ensures ok == Ends(old(View()), r, c)
      ensures View() == EndGrant(cfg, old(View()), r, if actor == "" then "system" else actor, action, "removed from " + cfg.activeGroup, c)
    {
      hide Sound, RowSound, Scan, Insert, Decoded, Numbered, EntriesSound, Events, Appended, TrimSpace, Size, ReasonOf, Logged, Notified;
      var who := if actor == "" then "system" else actor;
      var removed := kc.RemoveFromGroup(r.username, c.group);
      if !removed {
        return false;
      }
      var req := r.(status := Released);
      req := req.(releasedAt := Some(c.at));
      ok := db.Update(req, c.write);
      if !ok {
        return;
      }
      var at: Stamp := *;
      var _ := Audit(action, who, req, "removed from " + cfg.activeGroup, false, at, c.audit);
      Notify(req, ReleasedRequester(ReasonOf(action)), c.mark);
    }

    method ExpireOne(r: Request, c: Calls)
      requires Valid() && Storable(r) && r.id in db.Contents() && SameIdentity(db.Contents()[r.id], r)
      modifies db, notify
      ensures Valid() && SameRows(old(db.Contents()), db.Contents())
      ensures View() == ExpireOverdue(cfg, old(View()), r, c)
    {
      hide Sound, RowSound, Scan, Insert, Decoded, Numbered, EntriesSound, Events, Appended, TrimSpace, Size, Logged, Notified;
      var req := r.(status := Expired);
      var ok := db.Update(req, c.write);
      if ok {
        var at: Stamp := *;
        var _ := Audit(RequestExpired, "system", req, "request TTL elapsed", false, at, c.audit);
        Notify(req, ExpiredRequester, c.mark);
      }
    }

    method RevokeOne(r: Request, c: Calls)
      requires Valid() && InRange(c.at) && Storable(r)
      requires r.id in db.Contents() && SameIdentity(db.Contents()[r.id], r)
      modifies db, kc, notify
      ensures Valid() && SameRows(old(db.Contents()), db.Contents())
      ensures View() == EndGrant(cfg, old(View()), r, "system", GrantExpired, "active TTL elapsed; revoked", c)
    {
      hide Sound, RowSound, Scan, Insert, Decoded, Numbered, EntriesSound, Events, Appended, TrimSpace, Size, Logged, Notified;
      var removed := kc.RemoveFromGroup(r.username, c.group);
      if !removed {
        return;
      }
      var req := r.(status := Released);
      req := req.(releasedAt := Some(c.at));
      var ok := db.Update(req, c.write);
      if ok {
        var at: Stamp := *;
        var _ := Audit(GrantExpired, "system", req, "active TTL elapsed; revoked", false, at, c.audit);
        Notify(req, ReleasedRequester(ByExpiry), c.mark);
      }
    }

    method Reconcile(p: Pass) returns (ok: bool)
      requires Valid() && InRange(p.now) && forall id :: InRange(p.row(id).at)
      requires Enumerates(p.plan, db.Contents().Keys) && Enumerates(p.plan2, db.Contents().Keys)
      modifies db, kc, notify
      ensures Valid() && ok == (p.query && p.query2)
      ensures View() == Protocol.Reconcile(cfg, old(View()), p)
    {
      hide Sound, RowSound, Scan, Insert, Decoded, Numbered, EntriesSound, Events, Appended, TrimSpace, Size;
      var found := db.ByStatusBefore(Pending, RequestExpiresAt, p.now, p.plan, p.query);
      if found.Failure? {
        return false;
      }
      BatchIsStored(db.rows, p.plan, Pending, RequestExpiresAt, p.now);
      ExpireBatch(found.value, p.row);
      found := db.ByStatusBefore(Approved, ActiveExpiresAt, p.now, p.plan2, p.query2);
      if found.Failure? {
        return false;
      }
      BatchIsStored(db.rows, p.plan2, Approved, ActiveExpiresAt, p.now);
      RevokeBatch(found.value, p.row);
      ok := true;
    }

    method ExpireBatch(pending: seq<Request>, row: string -> Calls)
      requires Valid() && Stored(db.Contents(), pending)
      modifies db, notify
      ensures Valid() && SameRows(old(db.Contents()), db.Contents())
      ensures View() == ExpireAll(cfg, old(View()), pending, row)
    {
      hide Sound, RowSound, Scan, Insert, Decoded, Numbered, EntriesSound, Events, Appended;
      hide ExpireAll, RevokeAll, ExpireOverdue, EndGrant, SameRows, Stored, Storable, SameIdentity;
      ghost var before := View();
      SameRowsRefl(before.reqs);
      assert pending[..0] == [] && View() == ExpireAll(cfg, before, [], row) by {
        ExpireNone(cfg, before, row);
      }
      for i := 0 to |pending|
        invariant Valid() && SameRows(before.reqs, db.Contents())
        invariant View() == ExpireAll(cfg, before, pending[..i], row)
      {
        StoredRow(before.reqs, db.Contents(), pending, i);
        ghost var reqs := db.Contents();
        ExpireOne(pending[i], row(pending[i].id));
        SameRowsTrans(before.reqs, reqs, db.Contents());
        ExpireAllStep(cfg, before, pending, i, row);
      }
      assert pending[..|pending|] == pending;
    }

    method RevokeBatch(active: seq<Request>, row: string -> Calls)
      requires Valid() && Stored(db.Contents(), active) && forall id :: InRange(row(id).at)
      modifies db, kc, notify
      ensures Valid() && View() == RevokeAll(cfg, old(View()), active, row)
    {
      hide Sound, RowSound, Scan, Insert, Decoded, Numbered, EntriesSound, Events, Appended;
      hide ExpireAll, RevokeAll, ExpireOverdue, EndGrant, SameRows, Stored, Storable, SameIdentity;
      ghost var before := View();
      SameRowsRefl(before.reqs);
      assert active[..0] == [] && View() == RevokeAll(cfg, before, [], row) by {
        RevokeNone(cfg, before, row);
      }
      for i := 0 to |active|
        invariant Valid() && SameRows(before.reqs, db.Contents())
        invariant View() == RevokeAll(cfg, before, active[..i], row)
      {
        StoredRow(before.reqs, db.Contents(), active, i);
        ghost var reqs := db.Contents();
        RevokeOne(active[i], row(active[i].id));
        SameRowsTrans(before.reqs, reqs, db.Contents());
        RevokeAllStep(cfg, before, active, i, row);
      }
      assert active[..|active|] == active;
    }
  }
}
