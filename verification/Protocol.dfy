/**
 What each operation of the service does to the shared state: the request table, the
 membership of the active group, the audit log, the notification marks and the posts.
 Outcomes of store and group calls are arguments, so every pattern of failures is covered.
 */
module Protocol {
  import opened Wrappers
  import opened Text
  import opened Timestamp
  import opened Deadlines
  import opened Requests
  import opened AuditView
  import opened Storage

  datatype Config = Config(requestTTL: nat, activeTTL: nat, notifications: bool, activeGroup: string)

  const MIN_JUSTIFICATION: nat := 8
  const MIN_NOTES: nat := 8

  datatype State = State(
    reqs: map<string, Request>,
    active: set<string>,
    log: seq<AuditEvent>,
    marks: set<Mark>,
    posts: seq<Mark>)

  const EMPTY: State := State(map[], {}, [], {}, [])

  // Lost: the server applied the change but the call reported a failure.
  datatype GroupOutcome = Done | Refused | Lost

  // The answer to a membership question.
  datatype Answer = Yes | No | Unavailable

  // The outcomes of the calls one operation makes, and the clock at its last one.
  datatype Calls = Calls(read: bool, group: GroupOutcome, write: bool, audit: bool, audit2: bool, mark: bool, at: Instant)

  predicate Faultless(c: Calls) {
    c.read && c.group == Done && c.write && c.audit && c.audit2 && c.mark
  }

  datatype Outcome = Created | Ok | BadRequest | Unauthorized | Forbidden | NotFound | Conflict | BadGateway | InternalError

  datatype Reply = Reply(state: State, outcome: Outcome)

  // ----- rows -----

  function NewRow(cfg: Config, id: string, username: string, justification: string, now: Instant): Request {
    Request(id, username, justification, Pending, now, now + cfg.requestTTL, None, "", "", None, None)
  }

  function ApprovedRow(cfg: Config, r: Request, now: Instant, actor: string, notes: string): Request {
    r.(status := Approved, approvedAt := Some(now), approvedBy := actor, approvalNotes := notes,
       activeExpiresAt := Some(now + cfg.activeTTL))
  }

  function ExpiredRow(r: Request): Request {
    r.(status := Expired)
  }

  function ReleasedRow(r: Request, at: Instant): Request {
    r.(status := Released, releasedAt := Some(at))
  }

  // ----- single calls -----

  function AfterAdd(active: set<string>, user: string, outcome: GroupOutcome): set<string> {
    if outcome.Refused? then active else active + {user}
  }

  function AfterRemove(active: set<string>, user: string, outcome: GroupOutcome): set<string> {
    if outcome.Refused? then active else active - {user}
  }

  function Written(s: State, r: Request, up: bool): State {
    if up && r.id in s.reqs then s.(reqs := s.reqs[r.id := r]) else s
  }

  function Logged(s: State, e: AuditEvent, up: bool): State {
    if up then s.(log := Appended(s.log, e)) else s
  }

  function Event(action: Action, actor: string, r: Request, detail: string, breakGlass: bool): AuditEvent {
    AuditEvent(0, action, actor, r.username, r.id, r.justification, detail, breakGlass)
  }

  // The mark is stored before the post is attempted; a post already marked is not repeated.
  function Notified(cfg: Config, s: State, mark: Mark, up: bool): State {
    if cfg.notifications && up && mark !in s.marks then s.(marks := s.marks + {mark}, posts := s.posts + [mark]) else s
  }

  // ----- handlers -----

  function Create(cfg: Config, s: State, actor: string, username: string, justification: string, eligible: Answer,
                  id: string, now: Instant, breakGlass: bool, c: Calls): Reply
  {
    var named := TrimSpace(username);
    var user := if named == "" then actor else named;
    var reason := TrimSpace(justification);
    if user == "" || reason == "" || Size(reason) < MIN_JUSTIFICATION then Reply(s, BadRequest)
    else if actor != "" && actor != user then Reply(s, Forbidden)
    else if eligible.Unavailable? then Reply(s, BadGateway)
    else if eligible.No? then Reply(s, Forbidden)
    else if !c.write || id in s.reqs then Reply(s, InternalError)
    else
      var r := NewRow(cfg, id, user, reason, now);
      var s1 := s.(reqs := s.reqs[id := r]);
      var s2 := Logged(s1, Event(RequestCreated, actor, r, "pending elevation request", breakGlass), c.audit);
      Reply(Notified(cfg, s2, Mark(id, PendingApprovers), c.mark), Created)
  }

  function Approve(cfg: Config, s: State, actor: string, permanent: Answer, text: string, id: string,
                   now: Instant, breakGlass: bool, c: Calls): Reply
  {
    var notes := TrimSpace(text);
    if actor == "" then Reply(s, Unauthorized)
    else if permanent.Unavailable? then Reply(s, BadGateway)
    else if permanent.No? then Reply(s, Forbidden)
    else if Size(notes) < MIN_NOTES then Reply(s, BadRequest)
    else if !c.read || id !in s.reqs then Reply(s, NotFound)
    else if s.reqs[id].status != Pending then Reply(s, Conflict)
    else if Late(s.reqs[id].requestExpiresAt, now) then Reply(ExpireLate(cfg, s, s.reqs[id], c), Conflict)
    else Grant(cfg, s, s.reqs[id], actor, notes, now, breakGlass, c)
  }

  // The late branch ignores the outcome of its write.
  function ExpireLate(cfg: Config, s: State, r: Request, c: Calls): State {
    var s1 := Written(s, ExpiredRow(r), c.write);
    var s2 := Logged(s1, Event(RequestExpired, "system", r, "expired before approve", false), c.audit);
    Notified(cfg, s2, Mark(r.id, ExpiredRequester), c.mark)
  }

  function Grant(cfg: Config, s: State, r: Request, actor: string, notes: string, now: Instant, breakGlass: bool, c: Calls): Reply {
    var s1 := s.(active := AfterAdd(s.active, r.username, c.group));
    if c.group != Done then Reply(s1, BadGateway)
    else if !(c.write && r.id in s.reqs) then Reply(s1, InternalError)
    else
      var s2 := Written(s1, ApprovedRow(cfg, r, now, actor, notes), c.write);
      var s3 := Logged(s2, Event(RequestApproved, actor, r, "notes: " + notes, breakGlass), c.audit);
      var s4 := Logged(s3, Event(GrantActive, actor, r, "user added to " + cfg.activeGroup, breakGlass), c.audit2);
      Reply(Notified(cfg, s4, Mark(r.id, ApprovedRequester), c.mark), Ok)
  }

  function Release(cfg: Config, s: State, actor: string, permanent: Answer, id: string, c: Calls): Reply {
    if !c.read || id !in s.reqs then Reply(s, NotFound)
    else if s.reqs[id].status != Approved then Reply(s, Conflict)
    else if actor != "" && actor != s.reqs[id].username && permanent.Unavailable? then Reply(s, BadGateway)
    else if actor != "" && actor != s.reqs[id].username && permanent.No? then Reply(s, Forbidden)
    else
      var s' := EndGrant(cfg, s, s.reqs[id], if actor == "" then "system" else actor, EarlyRelease, "removed from " + cfg.activeGroup, c);
      Reply(s', if Ends(s, s.reqs[id], c) then Ok else BadGateway)
  }

  // The two calls that end a grant both succeed.
  predicate Ends(s: State, r: Request, c: Calls) {
    c.group == Done && c.write && r.id in s.reqs
  }

  function ReasonOf(action: Action): Reason {
    if action.GrantExpired? then ByExpiry else if action.EarlyRelease? then ByEarlyRelease else ByRelease
  }

  function EndGrant(cfg: Config, s: State, r: Request, actor: string, action: Action, detail: string, c: Calls): State {
    var s1 := s.(active := AfterRemove(s.active, r.username, c.group));
    if !Ends(s, r, c) then s1
    else
      var s2 := Written(s1, ReleasedRow(r, c.at), c.write);
      var s3 := Logged(s2, Event(action, actor, r, detail, false), c.audit);
      Notified(cfg, s3, Mark(r.id, ReleasedRequester(ReasonOf(action))), c.mark)
  }

  // A break-glass user asking who they are leaves an audit event and nothing else.
  function Session(s: State, actor: string, breakGlass: bool, audit: bool): State {
    if actor != "" && breakGlass then Logged(s, SessionEvent(actor), audit) else s
  }

  function SessionEvent(actor: string): AuditEvent {
    AuditEvent(0, BreakGlassSession, actor, actor, "", "", "break-glass user authenticated to PIM", true)
  }

  // ----- Reconcile -----

  datatype Pass = Pass(now: Instant, plan: seq<string>, plan2: seq<string>, query: bool, query2: bool, row: string -> Calls)

  function ExpireOverdue(cfg: Config, s: State, r: Request, c: Calls): State {
    if !(c.write && r.id in s.reqs) then s
    else
      var s1 := Written(s, ExpiredRow(r), c.write);
      var s2 := Logged(s1, Event(RequestExpired, "system", r, "request TTL elapsed", false), c.audit);
      Notified(cfg, s2, Mark(r.id, ExpiredRequester), c.mark)
  }

  function ExpireAll(cfg: Config, s: State, batch: seq<Request>, row: string -> Calls): (s': State)
    ensures s'.reqs.Keys == s.reqs.Keys
  {
    if batch == [] then s
    else
      var r := batch[|batch| - 1];
      ExpireOverdue(cfg, ExpireAll(cfg, s, batch[..|batch| - 1], row), r, row(r.id))
  }

  function RevokeAll(cfg: Config, s: State, batch: seq<Request>, row: string -> Calls): (s': State)
    ensures s'.reqs.Keys == s.reqs.Keys
  {
    if batch == [] then s
    else
      var r := batch[|batch| - 1];
      EndGrant(cfg, RevokeAll(cfg, s, batch[..|batch| - 1], row), r, "system", GrantExpired, "active TTL elapsed; revoked", row(r.id))
  }

  predicate PlansFit(s: State, p: Pass) {
    (forall id :: id in p.plan ==> id in s.reqs) && (forall id :: id in p.plan2 ==> id in s.reqs)
  }

  function PendingBatch(s: State, p: Pass): seq<Request>
    requires PlansFit(s, p)
  {
    Select(s.reqs, p.plan, Pending, RequestExpiresAt, p.now)
  }

  function ActiveBatch(s: State, p: Pass): seq<Request>
    requires PlansFit(s, p)
  {
    Select(s.reqs, p.plan2, Approved, ActiveExpiresAt, p.now)
  }

  function Reconcile(cfg: Config, s: State, p: Pass): (s': State)
    requires PlansFit(s, p)
    ensures s'.reqs.Keys == s.reqs.Keys
  {
    if !p.query then s
    else
      var s1 := ExpireAll(cfg, s, PendingBatch(s, p), p.row);
      if !p.query2 then s1 else RevokeAll(cfg, s1, ActiveBatch(s1, p), p.row)
  }
}
