/** The atomic operations are the interleaved ones with nobody in between; and why overlap matters. */
module Atomicity {
  import opened Text
  import opened Timestamp
  import opened Deadlines
  import opened Requests
  import opened Storage
  import opened Protocol
  import opened Sweep
  import opened Runs
  import opened Lifecycle
  import opened Membership
  import opened Interleaving
  import opened StepwiseRows
  import opened Coverage

  function Wrote(up: bool): GroupOutcome {
    if up then Done else Refused
  }

  // Table and membership as the atomic state has them, with `p` out of the way.
  predicate Agrees(w: World, s: State, p: nat) {
    w.reqs == s.reqs && w.active == s.active && p !in w.procs
  }

  // ----- approve and release -----

  // The calls an approve makes once its guards have passed.
  function ApproveCalls(cfg: Config, w: World, p: nat, op: Op): World
    requires op.ApproveOp?
  {
    var w1 := Next(cfg, w, BeginApprove(p, op.id, op.now, op.actor, TrimSpace(op.text)));
    var w2 := Next(cfg, w1, Call(p, if p in w1.procs && w1.procs[p].Expiring? then Wrote(op.c.write) else op.c.group, op.now, []));
    Next(cfg, w2, Call(p, Wrote(op.c.write), op.now, []))
  }

  lemma ApproveIsItsCalls(cfg: Config, s: State, w: World, p: nat, op: Op)
    requires Keyed(s) && Agrees(w, s, p) && (ReachesGrant(s, op) || ExpiresLate(s, op))
    ensures Agrees(ApproveCalls(cfg, w, p, op), Step(cfg, s, op), p)
    ensures ApproveCalls(cfg, w, p, op).procs == w.procs
  {
    hide Step, TrimSpace;
    ApproveRows(cfg, s, op);
    StepActive(cfg, s, op);
  }

  function ReleaseCalls(cfg: Config, w: World, p: nat, id: string, c: Calls): World {
    var w1 := Next(cfg, w, BeginRelease(p, id));
    var w2 := Next(cfg, w1, Call(p, c.group, c.at, []));
    Next(cfg, w2, Call(p, Wrote(c.write), c.at, []))
  }

  lemma ReleaseIsItsCalls(cfg: Config, s: State, w: World, p: nat, op: Op)
    requires Keyed(s) && Agrees(w, s, p) && ReachesRemoval(s, op)
    ensures Agrees(ReleaseCalls(cfg, w, p, op.id, op.c), Step(cfg, s, op), p)
    ensures ReleaseCalls(cfg, w, p, op.id, op.c).procs == w.procs
  {
    hide Step;
    ReleaseRows(cfg, s, op);
    StepActive(cfg, s, op);
  }

  // ----- Reconcile -----

  // Process `p` makes its calls until it is past its first loop, or its second.
  function SweepCalls(cfg: Config, w: World, p: nat, rest: seq<Request>, row: string -> Calls): World
    decreases |rest|
  {
    if rest == [] then w
    else SweepCalls(cfg, Next(cfg, w, Call(p, Wrote(row(rest[0].id).write), 0, [])), p, rest[1..], row)
  }

  function RevokeCalls(cfg: Config, w: World, p: nat, rest: seq<Request>, row: string -> Calls): World
    decreases |rest|
  {
    if rest == [] then w
    else
      var c := row(rest[0].id);
      var w1 := Next(cfg, w, Call(p, c.group, c.at, []));
      var w2 := if c.group == Done then Next(cfg, w1, Call(p, Wrote(c.write), c.at, [])) else w1;
      RevokeCalls(cfg, w2, p, rest[1..], row)
  }

  function ReconcileCalls(cfg: Config, w: World, p: nat, pass: Pass): World {
    if !pass.query then w
    else
      var w1 := Next(cfg, w, BeginReconcile(p, pass.now, pass.plan));
      var w2 := SweepCalls(cfg, w1, p, OverdueRows(w, pass.plan, Pending, RequestExpiresAt, pass.now), pass.row);
      var w3 := Next(cfg, w2, Call(p, Wrote(pass.query2), pass.now, pass.plan2));
      if !pass.query2 then w3
      else RevokeCalls(cfg, w3, p, OverdueRows(w2, pass.plan2, Approved, ActiveExpiresAt, pass.now), pass.row)
  }

  lemma {:induction false} ExpireAllHead(cfg: Config, s: State, batch: seq<Request>, row: string -> Calls)
    requires batch != []
    ensures ExpireAll(cfg, s, batch, row) == ExpireAll(cfg, ExpireOverdue(cfg, s, batch[0], row(batch[0].id)), batch[1..], row)
  {
    hide ExpireOverdue;
    if |batch| > 1 {
      ExpireAllHead(cfg, s, batch[..|batch| - 1], row);
      assert batch[..|batch| - 1][1..] == batch[1..][..|batch| - 2];
    } else {
      assert batch[..0] == [] && batch[1..] == [];
    }
  }

  lemma {:induction false} RevokeAllHead(cfg: Config, s: State, batch: seq<Request>, row: string -> Calls)
    requires batch != []
    ensures RevokeAll(cfg, s, batch, row) ==
            RevokeAll(cfg, EndGrant(cfg, s, batch[0], "system", GrantExpired, "active TTL elapsed; revoked", row(batch[0].id)), batch[1..], row)
  {
    hide EndGrant;
    if |batch| > 1 {
      RevokeAllHead(cfg, s, batch[..|batch| - 1], row);
      assert batch[..|batch| - 1][1..] == batch[1..][..|batch| - 2];
    } else {
      assert batch[..0] == [] && batch[1..] == [];
    }
  }

  lemma OneExpiry(cfg: Config, s: State, w: World, p: nat, now: Instant, rest: seq<Request>, c: Calls, others: map<nat, Proc>)
    returns (w1: World)
    requires rest != [] && w.reqs == s.reqs && w.active == s.active && rest[0].id in s.reqs
    requires w.procs == others[p := Sweeping(now, rest)]
    ensures w1 == Next(cfg, w, Call(p, Wrote(c.write), 0, []))
    ensures var s1 := ExpireOverdue(cfg, s, rest[0], c);
            w1.reqs == s1.reqs && w1.active == s1.active
    ensures w1.procs == others[p := if rest[1..] == [] then Querying(now) else Sweeping(now, rest[1..])]
  {
    hide ExpireOverdue;
    ExpireOverdueRow(cfg, s, rest[0], c);
    w1 := Next(cfg, w, Call(p, Wrote(c.write), 0, []));
  }

  lemma {:induction false} SweepIsItsCalls(cfg: Config, s: State, w: World, p: nat, now: Instant, rest: seq<Request>, row: string -> Calls, others: map<nat, Proc>)
    requires w.reqs == s.reqs && w.active == s.active && forall r :: r in rest ==> r.id in s.reqs
    requires w.procs == others[p := if rest == [] then Querying(now) else Sweeping(now, rest)]
    ensures var w' := SweepCalls(cfg, w, p, rest, row);
            && w'.reqs == ExpireAll(cfg, s, rest, row).reqs && w'.active == ExpireAll(cfg, s, rest, row).active
            && w'.procs == others[p := Querying(now)]
    decreases |rest|
  {
    if rest != [] {
      var r := rest[0];
      var s1 := ExpireOverdue(cfg, s, r, row(r.id));
      assert r in rest;
      ExpireOverdueRow(cfg, s, r, row(r.id));
      ExpireAllHead(cfg, s, rest, row);
      var w1 := OneExpiry(cfg, s, w, p, now, rest, row(r.id), others);
      hide Next, ExpireOverdue, ExpireAll;
      SweepIsItsCalls(cfg, s1, w1, p, now, rest[1..], row, others);
    }
  }

  lemma {:induction false} RevokeIsItsCalls(cfg: Config, s: State, w: World, p: nat, now: Instant, rest: seq<Request>, row: string -> Calls, others: map<nat, Proc>)
    requires w.reqs == s.reqs && w.active == s.active && p !in others && forall r :: r in rest ==> r.id in s.reqs
    requires w.procs == if rest == [] then others else others[p := Revoking(now, rest)]
    ensures var w' := RevokeCalls(cfg, w, p, rest, row);
            && w'.reqs == RevokeAll(cfg, s, rest, row).reqs && w'.active == RevokeAll(cfg, s, rest, row).active
            && w'.procs == others
    decreases |rest|
  {
    if rest != [] {
      var r := rest[0];
      var s1 := EndGrant(cfg, s, r, "system", GrantExpired, "active TTL elapsed; revoked", row(r.id));
      assert r in rest;
      EndGrantRow(cfg, s, r, "system", GrantExpired, "active TTL elapsed; revoked", row(r.id));
      RevokeAllHead(cfg, s, rest, row);
      var w2 := OneRevocation(cfg, s, w, p, now, rest, row(r.id), others);
      hide Next, EndGrant, RevokeAll;
      RevokeIsItsCalls(cfg, s1, w2, p, now, rest[1..], row, others);
    }
  }

  lemma OneRevocation(cfg: Config, s: State, w: World, p: nat, now: Instant, rest: seq<Request>, c: Calls, others: map<nat, Proc>)
    returns (w2: World)
    requires rest != [] && w.reqs == s.reqs && w.active == s.active && p !in others && rest[0].id in s.reqs
    requires w.procs == others[p := Revoking(now, rest)]
    ensures var w1 := Next(cfg, w, Call(p, c.group, c.at, []));
            w2 == if c.group == Done then Next(cfg, w1, Call(p, Wrote(c.write), c.at, [])) else w1
    ensures var s1 := EndGrant(cfg, s, rest[0], "system", GrantExpired, "active TTL elapsed; revoked", c);
            w2.reqs == s1.reqs && w2.active == s1.active
    ensures w2.procs == if rest[1..] == [] then others else others[p := Revoking(now, rest[1..])]
  {
    hide EndGrant;
    EndGrantRow(cfg, s, rest[0], "system", GrantExpired, "active TTL elapsed; revoked", c);
    var w1 := Next(cfg, w, Call(p, c.group, c.at, []));
    w2 := if c.group == Done then Next(cfg, w1, Call(p, Wrote(c.write), c.at, [])) else w1;
  }

  lemma ReconcileIsItsCalls(cfg: Config, s: State, w: World, p: nat, pass: Pass)
    requires Keyed(s) && PassFits(s, pass) && Agrees(w, s, p)
    ensures Agrees(ReconcileCalls(cfg, w, p, pass), Reconcile(cfg, s, pass), p)
    ensures ReconcileCalls(cfg, w, p, pass).procs == w.procs
  {
    hide ExpireAll, RevokeAll, Select, Matches, SweepCalls, RevokeCalls;
    if pass.query {
      var batch := PendingBatch(s, pass);
      BatchExact(s, pass.plan, Pending, RequestExpiresAt, pass.now);
      var w1 := Next(cfg, w, BeginReconcile(p, pass.now, pass.plan));
      SweepIsItsCalls(cfg, s, w1, p, pass.now, batch, pass.row, w.procs);
      ExpirePhase(cfg, s, pass);
      var s2 := ExpireAll(cfg, s, batch, pass.row);
      if pass.query2 {
        BatchExact(s2, pass.plan2, Approved, ActiveExpiresAt, pass.now);
        var w2 := SweepCalls(cfg, w1, p, batch, pass.row);
        var w3 := Next(cfg, w2, Call(p, Done, pass.now, pass.plan2));
        RevokeIsItsCalls(cfg, s2, w3, p, pass.now, ActiveBatch(s2, pass), pass.row, w.procs);
      }
    }
  }

  // ----- runs, one call at a time -----

  lemma {:induction false} OneMore(cfg: Config, w: World, moves: seq<Move>, m: Move)
    ensures RunMoves(cfg, w, moves + [m]) == Next(cfg, RunMoves(cfg, w, moves), m)
    ensures AllowedRun(cfg, w, moves + [m]) <==> AllowedRun(cfg, w, moves) && Allowed(RunMoves(cfg, w, moves), m)
    decreases |moves|
  {
    hide Next, Allowed;
    if moves == [] {
      assert [m][1..] == [] && moves + [m] == [m];
    } else {
      assert (moves + [m])[0] == moves[0] && (moves + [m])[1..] == moves[1..] + [m];
      OneMore(cfg, Next(cfg, w, moves[0]), moves[1..], m);
    }
  }

  // The run goes on by one move, to `w'`.
  lemma Then(cfg: Config, w: World, moves: seq<Move>, m: Move, w': World) returns (longer: seq<Move>)
    requires Next(cfg, RunMoves(cfg, w, moves), m) == w'
    ensures longer == moves + [m] && RunMoves(cfg, w, longer) == w'
    ensures AllowedRun(cfg, w, longer) <==> AllowedRun(cfg, w, moves) && Allowed(RunMoves(cfg, w, moves), m)
  {
    hide Next, Allowed;
    OneMore(cfg, w, moves, m);
    longer := moves + [m];
  }

  lemma InsertCall(cfg: Config, w: World, p: nat, r: Request)
    requires r.id !in w.reqs && r.status == Pending
    ensures Next(cfg, w, Insert(p, r)) == w.(reqs := w.reqs[r.id := r]) && Allowed(w, Insert(p, r))
  {}

  lemma ReadCall(cfg: Config, w: World, p: nat, r: Request, now: Instant, actor: string, notes: string)
    requires p !in w.procs && r.id in w.reqs && w.reqs[r.id] == r && r.status == Pending && !Late(r.requestExpiresAt, now)
    ensures var m := BeginApprove(p, r.id, now, actor, notes);
            && Next(cfg, w, m) == w.(procs := w.procs[p := Approving(r, now, actor, notes)])
            && (Free(w, r.id) ==> Allowed(w, m))
  {}

  lemma AddCall(cfg: Config, w: World, p: nat, r: Request, now: Instant, actor: string, notes: string, at: Instant)
    requires p in w.procs && w.procs[p] == Approving(r, now, actor, notes)
    ensures Next(cfg, w, Call(p, Done, at, [])) == World(w.reqs, w.active + {r.username}, w.procs[p := Granting(r, now, actor, notes)])
    ensures Allowed(w, Call(p, Done, at, []))
  {}

  lemma GrantCall(cfg: Config, w: World, p: nat, r: Request, now: Instant, actor: string, notes: string, at: Instant)
    requires p in w.procs && w.procs[p] == Granting(r, now, actor, notes)
    ensures Next(cfg, w, Call(p, Done, at, [])) == World(w.reqs[r.id := ApprovedRow(cfg, r, now, actor, notes)], w.active, Drop(w.procs, p))
    ensures Allowed(w, Call(p, Done, at, []))
  {}

  lemma ReadToReleaseCall(cfg: Config, w: World, p: nat, r: Request)
    requires p !in w.procs && r.id in w.reqs && w.reqs[r.id] == r && r.status == Approved
    ensures Next(cfg, w, BeginRelease(p, r.id)) == w.(procs := w.procs[p := Releasing(r)]) && Allowed(w, BeginRelease(p, r.id))
  {}

  lemma RemoveCall(cfg: Config, w: World, p: nat, r: Request, at: Instant)
    requires p in w.procs && w.procs[p] == Releasing(r)
    ensures Next(cfg, w, Call(p, Done, at, [])) == World(w.reqs, w.active - {r.username}, w.procs[p := Removed(r)])
    ensures Allowed(w, Call(p, Done, at, []))
  {}

  lemma EndCall(cfg: Config, w: World, p: nat, r: Request, at: Instant)
    requires p in w.procs && w.procs[p] == Removed(r)
    ensures Next(cfg, w, Call(p, Done, at, [])) == World(w.reqs[r.id := ReleasedRow(r, at)], w.active, Drop(w.procs, p))
    ensures Allowed(w, Call(p, Done, at, []))
  {}

  lemma SelectCall(cfg: Config, w: World, p: nat, r: Request, now: Instant)
    requires p !in w.procs && w.reqs == map[r.id := r] && Matches(r, Pending, RequestExpiresAt, now)
    ensures Next(cfg, w, BeginReconcile(p, now, [r.id])) == w.(procs := w.procs[p := Sweeping(now, [r])])
  {
    hide Matches;
    SelectOne(w.reqs, r, now);
  }

  lemma ExpireCall(cfg: Config, w: World, p: nat, r: Request, now: Instant, at: Instant)
    requires p in w.procs && w.procs[p] == Sweeping(now, [r])
    ensures Next(cfg, w, Call(p, Done, at, [])) == World(w.reqs[r.id := ExpiredRow(r)], w.active, w.procs[p := Querying(now)])
  {}

  // Where a run ends with a member uncovered, some move of it uncovered one.
  lemma {:induction false} UncoveredAtTheEnd(cfg: Config, w: World, moves: seq<Move>)
    requires Invariant(w) && !AllCovered(RunMoves(cfg, w, moves))
    ensures !NeverUncovers(cfg, w, moves) && !AllowedRun(cfg, w, moves)
  {
    hide Next, Allowed, Uncovers, Usable, AllCovered;
    UsableIsRooted(w);
    InterleavingCoversExactly(cfg, w, moves);
    ThroughoutToTheEnd(cfg, w, moves);
    if AllowedRun(cfg, w, moves) {
      CoverageUnderInterleaving(cfg, w, moves);
    }
  }

  lemma KeepsId(cfg: Config, r: Request, now: Instant, actor: string, notes: string)
    ensures ApprovedRow(cfg, r, now, actor, notes).id == r.id && ApprovedRow(cfg, r, now, actor, notes).username == r.username
    ensures ApprovedRow(cfg, r, now, actor, notes).status == Approved
  {}

  lemma SelectOne(reqs: map<string, Request>, r: Request, now: Instant)
    requires reqs == map[r.id := r] && Matches(r, Pending, RequestExpiresAt, now)
    ensures Select(reqs, [r.id], Pending, RequestExpiresAt, now) == [r]
  {
    hide Matches;
    var plan := [r.id];
    var none := plan[..|plan| - 1];
    assert none == [] && Select(reqs, none, Pending, RequestExpiresAt, now) == [];
    assert reqs[plan[|plan| - 1]] == r;
    assert Select(reqs, plan, Pending, RequestExpiresAt, now) == [] + [r];
  }

  // ----- why an approve must not share its row -----

  lemma PendingIsInvariant(r: Request)
    requires r.status == Pending
    ensures Invariant(World(map[r.id := r], {}, map[]))
  {}

  // A member whose only row has ended, with no approve under way.
  lemma EndedIsUncovered(w: World, r: Request)
    requires w.reqs == map[r.id := r] && r.status != Approved && r.username in w.active
    requires forall p :: p in w.procs ==> !w.procs[p].Granting?
    ensures !CoveredUser(w, r.username) && !AllCovered(w)
  {}

  // An approve and a pass both read one pending row; the pass writes last. The user ends in the
  // group with the request expired and nothing in flight.
  lemma OverlapBreaksCoverage(cfg: Config, r: Request, now: Instant, late: Instant, actor: string, notes: string)
    returns (moves: seq<Move>)
    requires r.status == Pending && !Late(r.requestExpiresAt, now) && Due(r.requestExpiresAt, late)
    ensures var w := World(map[r.id := r], {}, map[]);
            && Invariant(w)
            && RunMoves(cfg, w, moves) == World(map[r.id := ExpiredRow(r)], {r.username}, map[1 := Querying(late)])
            && !CoveredUser(RunMoves(cfg, w, moves), r.username)
            && !NeverUncovers(cfg, w, moves) && !AllowedRun(cfg, w, moves)
  {
    hide Due, ApprovedRow, Late, Next, Allowed, Invariant, AllCovered, CoveredUser;
    PendingIsInvariant(r);
    EndedIsUncovered(World(map[r.id := ExpiredRow(r)], {r.username}, map[1 := Querying(late)]), ExpiredRow(r));
    KeepsId(cfg, r, now, actor, notes);
    var w0 := World(map[r.id := r], {}, map[]);
    var w1 := w0.(procs := map[0 := Approving(r, now, actor, notes)]);
    ReadCall(cfg, w0, 0, r, now, actor, notes);
    var w2 := w0.(procs := map[0 := Approving(r, now, actor, notes), 1 := Sweeping(late, [r])]);
    SelectCall(cfg, w1, 1, r, late);
    var w3 := World(w0.reqs, {r.username}, map[0 := Granting(r, now, actor, notes), 1 := Sweeping(late, [r])]);
    AddCall(cfg, w2, 0, r, now, actor, notes, now);
    var w4 := World(map[r.id := ApprovedRow(cfg, r, now, actor, notes)], {r.username}, map[1 := Sweeping(late, [r])]);
    GrantCall(cfg, w3, 0, r, now, actor, notes, now);
    ExpireCall(cfg, w4, 1, r, late, late);
    moves := Then(cfg, w0, [], BeginApprove(0, r.id, now, actor, notes), w1);
    moves := Then(cfg, w0, moves, BeginReconcile(1, late, [r.id]), w2);
    moves := Then(cfg, w0, moves, Call(0, Done, now, []), w3);
    moves := Then(cfg, w0, moves, Call(0, Done, now, []), w4);
    moves := Then(cfg, w0, moves, Call(1, Done, late, []), World(map[r.id := ExpiredRow(r)], {r.username}, map[1 := Querying(late)]));
    UncoveredAtTheEnd(cfg, w0, moves);
  }

  // Two approves both read one pending row; the first grants it, a release removes the member and the
  // second grants it again before the release writes. The user ends in the group with the request
  // released and nothing in flight.
  lemma TwoApprovesBreakCoverage(cfg: Config, r: Request, now: Instant, at: Instant, actor: string, notes: string)
    returns (moves: seq<Move>)
    requires r.status == Pending && !Late(r.requestExpiresAt, now)
    ensures var w := World(map[r.id := r], {}, map[]);
            var granted := ApprovedRow(cfg, r, now, actor, notes);
            && Invariant(w)
            && RunMoves(cfg, w, moves) == World(map[r.id := ReleasedRow(granted, at)], {r.username}, map[])
            && !CoveredUser(RunMoves(cfg, w, moves), r.username)
            && !NeverUncovers(cfg, w, moves) && !AllowedRun(cfg, w, moves)
  {
    hide ApprovedRow, Late, Next, Allowed, Invariant, AllCovered, CoveredUser;
    PendingIsInvariant(r);
    KeepsId(cfg, r, now, actor, notes);
    var rows, granted := map[r.id := r], ApprovedRow(cfg, r, now, actor, notes);
    var read, added := Approving(r, now, actor, notes), Granting(r, now, actor, notes);
    var w0 := World(rows, {}, map[]);
    var w4 := World(map[r.id := granted], {r.username}, map[1 := read]);
    moves := FirstOfTwo(cfg, r, now, actor, notes);
    var w5 := w4.(procs := map[1 := read, 2 := Releasing(granted)]);
    ReadToReleaseCall(cfg, w4, 2, granted);
    moves := Then(cfg, w0, moves, BeginRelease(2, r.id), w5);
    var w6 := World(w4.reqs, {}, map[1 := read, 2 := Removed(granted)]);
    RemoveCall(cfg, w5, 2, granted, at);
    moves := Then(cfg, w0, moves, Call(2, Done, at, []), w6);
    var w7 := World(w4.reqs, {r.username}, map[1 := added, 2 := Removed(granted)]);
    AddCall(cfg, w6, 1, r, now, actor, notes, now);
    moves := Then(cfg, w0, moves, Call(1, Done, now, []), w7);
    var w8 := World(w4.reqs, {r.username}, map[2 := Removed(granted)]);
    GrantCall(cfg, w7, 1, r, now, actor, notes, now);
    moves := Then(cfg, w0, moves, Call(1, Done, now, []), w8);
    EndCall(cfg, w8, 2, granted, at);
    moves := Then(cfg, w0, moves, Call(2, Done, at, []), World(map[r.id := ReleasedRow(granted, at)], {r.username}, map[]));
    EndedIsUncovered(RunMoves(cfg, w0, moves), ReleasedRow(granted, at));
    UncoveredAtTheEnd(cfg, w0, moves);
  }

  lemma FirstOfTwo(cfg: Config, r: Request, now: Instant, actor: string, notes: string) returns (moves: seq<Move>)
    requires r.status == Pending && !Late(r.requestExpiresAt, now)
    ensures RunMoves(cfg, World(map[r.id := r], {}, map[]), moves) ==
            World(map[r.id := ApprovedRow(cfg, r, now, actor, notes)], {r.username}, map[1 := Approving(r, now, actor, notes)])
  {
    hide ApprovedRow, Late, Next, Allowed;
    var read, added := Approving(r, now, actor, notes), Granting(r, now, actor, notes);
    var w0 := World(map[r.id := r], {}, map[]);
    var w1 := w0.(procs := map[0 := read]);
    ReadCall(cfg, w0, 0, r, now, actor, notes);
    moves := Then(cfg, w0, [], BeginApprove(0, r.id, now, actor, notes), w1);
    var w2 := w0.(procs := map[0 := read, 1 := read]);
    ReadCall(cfg, w1, 1, r, now, actor, notes);
    moves := Then(cfg, w0, moves, BeginApprove(1, r.id, now, actor, notes), w2);
    var w3 := World(w0.reqs, {r.username}, map[0 := added, 1 := read]);
    AddCall(cfg, w2, 0, r, now, actor, notes, now);
    moves := Then(cfg, w0, moves, Call(0, Done, now, []), w3);
    GrantCall(cfg, w3, 0, r, now, actor, notes, now);
    moves := Then(cfg, w0, moves, Call(0, Done, now, []), World(map[r.id := ApprovedRow(cfg, r, now, actor, notes)], {r.username}, map[1 := read]));
  }

  // ----- one grant ended twice -----

  // A request asked for and granted, with nobody else about.
  lemma GrantedAlone(cfg: Config, r: Request, now: Instant, actor: string, notes: string) returns (moves: seq<Move>)
    requires r.status == Pending && !Late(r.requestExpiresAt, now)
    ensures var w := World(map[], {}, map[]);
            && AllowedRun(cfg, w, moves)
            && RunMoves(cfg, w, moves) == World(map[r.id := ApprovedRow(cfg, r, now, actor, notes)], {r.username}, map[])
  {
    hide ApprovedRow, Late, Next, Allowed;
    var w0 := World(map[], {}, map[]);
    var w1 := World(map[r.id := r], {}, map[]);
    InsertCall(cfg, w0, 0, r);
    moves := Then(cfg, w0, [], Insert(0, r), w1);
    var w2 := w1.(procs := map[0 := Approving(r, now, actor, notes)]);
    ReadCall(cfg, w1, 0, r, now, actor, notes);
    moves := Then(cfg, w0, moves, BeginApprove(0, r.id, now, actor, notes), w2);
    var w3 := World(w1.reqs, {r.username}, map[0 := Granting(r, now, actor, notes)]);
    AddCall(cfg, w2, 0, r, now, actor, notes, now);
    moves := Then(cfg, w0, moves, Call(0, Done, now, []), w3);
    GrantCall(cfg, w3, 0, r, now, actor, notes, now);
    moves := Then(cfg, w0, moves, Call(0, Done, now, []), World(map[r.id := ApprovedRow(cfg, r, now, actor, notes)], {r.username}, map[]));
  }

  // From an empty table: a request is granted, and two releases of it both read the row as approved.
  // The first to write reads the later clock; the release time that stays is the earlier one, of the
  // release that wrote last. Nothing fails, and the interleaving is an allowed one.
  lemma LastReleaseStays(cfg: Config, r: Request, now: Instant, early: Instant, late: Instant, actor: string, notes: string)
    returns (moves: seq<Move>)
    requires r.status == Pending && !Late(r.requestExpiresAt, now) && early < late
    ensures var w, granted := World(map[], {}, map[]), ApprovedRow(cfg, r, now, actor, notes);
            && Invariant(w) && AllowedRun(cfg, w, moves) && moves != []
            && RunMoves(cfg, w, moves[..|moves| - 1]).reqs == map[r.id := ReleasedRow(granted, late)]
            && RunMoves(cfg, w, moves) == World(map[r.id := ReleasedRow(granted, early)], {}, map[])
  {
    hide ApprovedRow, Late, Next, Allowed;
    KeepsId(cfg, r, now, actor, notes);
    var granted := ApprovedRow(cfg, r, now, actor, notes);
    var start, w0 := World(map[], {}, map[]), World(map[r.id := granted], {r.username}, map[]);
    moves := GrantedAlone(cfg, r, now, actor, notes);
    var w1 := w0.(procs := map[1 := Releasing(granted)]);
    ReadToReleaseCall(cfg, w0, 1, granted);
    moves := Then(cfg, start, moves, BeginRelease(1, r.id), w1);
    var w2 := w0.(procs := map[1 := Releasing(granted), 2 := Releasing(granted)]);
    ReadToReleaseCall(cfg, w1, 2, granted);
    moves := Then(cfg, start, moves, BeginRelease(2, r.id), w2);
    var w3 := World(w0.reqs, {}, map[1 := Removed(granted), 2 := Releasing(granted)]);
    RemoveCall(cfg, w2, 1, granted, early);
    moves := Then(cfg, start, moves, Call(1, Done, early, []), w3);
    var w4 := World(w0.reqs, {}, map[1 := Removed(granted), 2 := Removed(granted)]);
    RemoveCall(cfg, w3, 2, granted, early);
    moves := Then(cfg, start, moves, Call(2, Done, early, []), w4);
    var w5 := World(map[r.id := ReleasedRow(granted, late)], {}, map[1 := Removed(granted)]);
    EndCall(cfg, w4, 2, granted, late);
    moves := Then(cfg, start, moves, Call(2, Done, late, []), w5);
    EndCall(cfg, w5, 1, granted, early);
    var before := moves;
    moves := Then(cfg, start, before, Call(1, Done, early, []), World(map[r.id := ReleasedRow(granted, early)], {}, map[]));
    assert moves[..|moves| - 1] == before;
  }
}
