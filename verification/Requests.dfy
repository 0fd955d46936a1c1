/** The elevation request and the events recorded about it. */
module Requests {
  import opened Wrappers
  import opened Timestamp

  datatype Status = Pending | Approved | Expired | Released | Denied

  datatype Request = Request(
    id: string,
    username: string,
    justification: string,
    status: Status,
    createdAt: Instant,
    requestExpiresAt: Instant,
    approvedAt: Option<Instant>,
    approvedBy: string,
    approvalNotes: string,
    activeExpiresAt: Option<Instant>,
    releasedAt: Option<Instant>)

  predicate OptionInRange(t: Option<Instant>) {
    t.Some? ==> InRange(t.value)
  }

  // Every time of the request has a four-digit year.
  predicate Storable(r: Request) {
    && InRange(r.createdAt) && InRange(r.requestExpiresAt)
    && OptionInRange(r.approvedAt) && OptionInRange(r.activeExpiresAt) && OptionInRange(r.releasedAt)
  }

  datatype Action =
    | RequestCreated | RequestApproved | GrantActive | RequestExpired
    | EarlyRelease | GrantExpired | BreakGlassSession

  datatype AuditEvent = AuditEvent(
    id: nat,
    action: Action,
    actor: string,
    subject: string,
    requestId: string,
    justification: string,
    detail: string,
    breakGlass: bool)

  datatype Reason = ByRelease | ByExpiry | ByEarlyRelease

  datatype Kind = PendingApprovers | ApprovedRequester | ExpiredRequester | ReleasedRequester(reason: Reason)

  datatype Mark = Mark(requestId: string, kind: Kind)
}
