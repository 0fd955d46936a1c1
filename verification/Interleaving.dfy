/**
 The grant and revoke protocol one store or group call at a time. Operations are processes with
 a program counter; between any two calls of one, calls of others may run.
 */
module Interleaving {
  import opened Timestamp
  import opened Deadlines
  import opened Requests
  import opened Storage
  import opened Protocol

  // Where an operation is, with the row or rows it read. The first row of `rest` is next.
  datatype Proc =
    | Approving(req: Request, now: Instant, actor: string, notes: string)  // before AddToGroup
    | Granting(req: Request, now: Instant, actor: string, notes: string)   // added, before its Update
    | Expiring(req: Request)                                               // late, before its Update
    | Releasing(req: Request)                                              // before RemoveFromGroup
    | Removed(req: Request)                                                // removed, before its Update
    | Sweeping(now: Instant, rest: seq<Request>)                           // overdue pending rows left to write
    | Querying(now: Instant)                                               // before the second query
    | Revoking(now: Instant, rest: seq<Request>)                           // before the next RemoveFromGroup
    | Revoked(now: Instant, rest: seq<Request>)                            // removed, before that row's Update

  datatype World = World(reqs: map<string, Request>, active: set<string>, procs: map<nat, Proc>)

  // One call. A store call succeeds when its outcome is Done and has no effect otherwise.
  datatype Move =
    | Insert(p: nat, req: Request)
    | BeginApprove(p: nat, id: string, now: Instant, actor: string, notes: string)
    | BeginRelease(p: nat, id: string)
    | BeginReconcile(p: nat, now: Instant, plan: seq<string>)
    | Call(p: nat, outcome: GroupOutcome, at: Instant, plan: seq<string>)
    | Restart

  function Drop(procs: map<nat, Proc>, p: nat): map<nat, Proc> {
    map q | q in procs && q != p :: procs[q]
  }

  function Put(w: World, r: Request, outcome: GroupOutcome): map<string, Request> {
    if outcome == Done then w.reqs[r.id := r] else w.reqs
  }

  function Sweep(w: World, p: nat, now: Instant, rest: seq<Request>): map<nat, Proc> {
    w.procs[p := if rest == [] then Querying(now) else Sweeping(now, rest)]
  }

  function Revoke(w: World, p: nat, now: Instant, rest: seq<Request>): map<nat, Proc> {
    if rest == [] then Drop(w.procs, p) else w.procs[p := Revoking(now, rest)]
  }

  predicate PlanFits(w: World, plan: seq<string>) {
    forall id :: id in plan ==> id in w.reqs
  }

  function OverdueRows(w: World, plan: seq<string>, status: Status, col: Column, now: Instant): seq<Request> {
    if PlanFits(w, plan) then Select(w.reqs, plan, status, col, now) else []
  }

  function Next(cfg: Config, w: World, m: Move): World {
    match m
    case Insert(_, req) => if req.id in w.reqs then w else w.(reqs := w.reqs[req.id := req])
    case BeginApprove(p, id, now, actor, notes) =>
      if p in w.procs || id !in w.reqs || w.reqs[id].status != Pending then w
      else if Late(w.reqs[id].requestExpiresAt, now) then w.(procs := w.procs[p := Expiring(w.reqs[id])])
      else w.(procs := w.procs[p := Approving(w.reqs[id], now, actor, notes)])
    case BeginRelease(p, id) =>
      if p in w.procs || id !in w.reqs || w.reqs[id].status != Approved then w
      else w.(procs := w.procs[p := Releasing(w.reqs[id])])
    case BeginReconcile(p, now, plan) =>
      if p in w.procs then w
      else w.(procs := Sweep(w, p, now, OverdueRows(w, plan, Pending, RequestExpiresAt, now)))
    case Call(p, outcome, at, plan) => if p in w.procs then Advance(cfg, w, p, w.procs[p], outcome, at, plan) else w
    case Restart => w.(procs := map[])
  }

  // The next call of process `p`, which is at `proc`.
  function Advance(cfg: Config, w: World, p: nat, proc: Proc, outcome: GroupOutcome, at: Instant, plan: seq<string>): World {
    match proc
    case Approving(req, now, actor, notes) =>
      World(w.reqs, AfterAdd(w.active, req.username, outcome),
            if outcome == Done then w.procs[p := Granting(req, now, actor, notes)] else Drop(w.procs, p))
    case Granting(req, now, actor, notes) =>
      World(Put(w, ApprovedRow(cfg, req, now, actor, notes), outcome), w.active, Drop(w.procs, p))
    case Expiring(req) => World(Put(w, ExpiredRow(req), outcome), w.active, Drop(w.procs, p))
    case Releasing(req) =>
      World(w.reqs, AfterRemove(w.active, req.username, outcome),
            if outcome == Done then w.procs[p := Removed(req)] else Drop(w.procs, p))
    case Removed(req) => World(Put(w, ReleasedRow(req, at), outcome), w.active, Drop(w.procs, p))
    case Sweeping(now, rest) =>
      if rest == [] then w.(procs := Sweep(w, p, now, []))
      else World(Put(w, ExpiredRow(rest[0]), outcome), w.active, Sweep(w, p, now, rest[1..]))
    case Querying(now) =>
      if outcome != Done then w.(procs := Drop(w.procs, p))
      else w.(procs := Revoke(w, p, now, OverdueRows(w, plan, Approved, ActiveExpiresAt, now)))
    case Revoking(now, rest) =>
      if rest == [] then w.(procs := Drop(w.procs, p))
      else World(w.reqs, AfterRemove(w.active, rest[0].username, outcome),
                 if outcome == Done then w.procs[p := Revoked(now, rest)] else Revoke(w, p, now, rest[1..]))
    case Revoked(now, rest) =>
      if rest == [] then w.(procs := Drop(w.procs, p))
      else World(Put(w, ReleasedRow(rest[0], at), outcome), w.active, Revoke(w, p, now, rest[1..]))
  }

  // ----- the rows an operation has in hand -----

  function Snapshot(proc: Proc): seq<Request> {
    match proc
    case Approving(req, _, _, _) => [req]
    case Granting(req, _, _, _) => [req]
    case Expiring(req) => [req]
    case Releasing(req) => [req]
    case Removed(req) => [req]
    case Sweeping(_, rest) => rest
    case Querying(_) => []
    case Revoking(_, rest) => rest
    case Revoked(_, rest) => rest
  }

  // The operation is an approve that has not yet written its row.
  predicate Grants(proc: Proc) {
    proc.Approving? || proc.Granting?
  }

  // No approve is under way on the row.
  predicate NoGrantOn(w: World, id: string) {
    forall p :: p in w.procs && Grants(w.procs[p]) ==> w.procs[p].req.id != id
  }

  // No operation has the row in hand.
  predicate Free(w: World, id: string) {
    forall p, r :: p in w.procs && r in Snapshot(w.procs[p]) ==> r.id != id
  }

  // Ids are fresh. An approve that is not late starts on a row nobody has in hand, and until it is
  // done no other approve, nor a pass for expiry, starts on that row. Everything else may interleave
  // freely, on one row too: releases with releases, releases with passes, passes with passes. Any
  // call may fail, and a restart may come at any time.
  ghost predicate Disjoint(w: World, m: Move) {
    match m
    case Insert(_, req) => req.id !in w.reqs && req.status == Pending
    case BeginApprove(p, id, now, _, _) =>
      && p !in w.procs
      && (id in w.reqs && w.reqs[id].status == Pending ==>
            if Late(w.reqs[id].requestExpiresAt, now) then NoGrantOn(w, id) else Free(w, id))
    case BeginRelease(p, id) => p !in w.procs
    case BeginReconcile(p, now, plan) =>
      && p !in w.procs && Enumerates(plan, w.reqs.Keys)
      && forall r :: r in OverdueRows(w, plan, Pending, RequestExpiresAt, now) ==> NoGrantOn(w, r.id)
    case Call(p, outcome, at, plan) => p in w.procs && (w.procs[p].Querying? ==> Enumerates(plan, w.reqs.Keys))
    case Restart => true
  }

  // A grant is not left half done: its group call is never lost, its write succeeds, and no restart
  // comes in between. All other calls may still fail.
  predicate Settles(w: World, m: Move) {
    match m
    case Call(p, outcome, _, _) =>
      p in w.procs ==> (w.procs[p].Approving? ==> outcome != Lost) && (w.procs[p].Granting? ==> outcome == Done)
    case Restart => forall p :: p in w.procs ==> !w.procs[p].Granting?
    case _ => true
  }

  ghost predicate Allowed(w: World, m: Move) {
    Disjoint(w, m) && Settles(w, m)
  }

  ghost predicate DisjointRun(cfg: Config, w: World, moves: seq<Move>)
    decreases |moves|
  {
    moves == [] || (Disjoint(w, moves[0]) && DisjointRun(cfg, Next(cfg, w, moves[0]), moves[1..]))
  }

  ghost predicate AllowedRun(cfg: Config, w: World, moves: seq<Move>)
    decreases |moves|
  {
    moves == [] || (Allowed(w, moves[0]) && AllowedRun(cfg, Next(cfg, w, moves[0]), moves[1..]))
  }

  function RunMoves(cfg: Config, w: World, moves: seq<Move>): World
    decreases |moves|
  {
    if moves == [] then w else RunMoves(cfg, Next(cfg, w, moves[0]), moves[1..])
  }
}
