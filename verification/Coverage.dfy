/** Exactly when an interleaving leaves a member of the group that nothing accounts for. */
module Coverage {
  import opened Timestamp
  import opened Deadlines
  import opened Requests
  import opened Storage
  import opened Protocol
  import opened Interleaving
  import opened StepwiseRows

  // ----- what is to be proved -----

  // The row's release has removed the member but not yet written the row.
  predicate Leaving(proc: Proc, id: string) {
    (proc.Removed? && proc.req.id == id) || (proc.Revoked? && proc.rest != [] && proc.rest[0].id == id)
  }

  // An approved row of the user, not between a RemoveFromGroup and its Update.
  predicate Vouches(w: World, id: string, user: string) {
    && id in w.reqs && w.reqs[id].status == Approved && w.reqs[id].username == user
    && forall p :: p in w.procs ==> !Leaving(w.procs[p], id)
  }

  // An approve of the user between its AddToGroup and its Update.
  predicate InGrant(w: World, p: nat, user: string) {
    p in w.procs && w.procs[p].Granting? && w.procs[p].req.username == user
  }

  ghost predicate CoveredUser(w: World, user: string) {
    (exists id :: Vouches(w, id, user)) || (exists p :: InGrant(w, p, user))
  }

  ghost predicate AllCovered(w: World) {
    forall u :: u in w.active ==> CoveredUser(w, u)
  }

  // ----- exactly when a call uncovers a member -----

  // Rows are kept under their ids, and a copy an operation has in hand carries the user of its row.
  predicate Rooted(w: World) {
    && (forall id :: id in w.reqs ==> w.reqs[id].id == id)
    && (forall p, r :: p in w.procs && r in Snapshot(w.procs[p]) ==> r.id in w.reqs && w.reqs[r.id].username == r.username)
  }

  ghost predicate OtherRow(w: World, id: string, user: string) {
    exists j :: j != id && Vouches(w, j, user)
  }

  ghost predicate OtherGrant(w: World, p: nat, user: string) {
    exists q :: q != p && InGrant(w, q, user)
  }

  predicate LeftByOther(w: World, p: nat, id: string) {
    exists q :: q in w.procs && q != p && Leaving(w.procs[q], id)
  }

  predicate HasApprovedRow(w: World, user: string) {
    exists id :: id in w.reqs && w.reqs[id].status == Approved && w.reqs[id].username == user
  }

  // Expiring the row takes the last thing that accounts for a member.
  ghost predicate ExpiresLast(w: World, p: nat, r: Request, outcome: GroupOutcome) {
    outcome == Done && r.username in w.active && !OtherRow(w, r.id, r.username) && !OtherGrant(w, p, r.username)
  }

  // The moves after which some member is not accounted for, judged on the state before them: an add
  // that is applied but reported as failed; a grant whose write fails, or lands on a row that is half
  // released; an expiry written over a grant; a restart between the two calls of an approve.
  ghost predicate Uncovers(w: World, m: Move) {
    match m
    case Call(p, outcome, _, _) =>
      p in w.procs &&
      (match w.procs[p]
       case Approving(req, _, _, _) => outcome == Lost && !CoveredUser(w, req.username)
       case Granting(req, _, _, _) =>
         && req.username in w.active && !OtherRow(w, req.id, req.username) && !OtherGrant(w, p, req.username)
         && (if outcome == Done then LeftByOther(w, p, req.id) else !Vouches(w, req.id, req.username))
       case Expiring(req) => ExpiresLast(w, p, req, outcome)
       case Sweeping(_, rest) => rest != [] && ExpiresLast(w, p, rest[0], outcome)
       case _ => false)
    case Restart => exists u :: u in w.active && !HasApprovedRow(w, u)
    case _ => false
  }

  // The step of `p` concerns no row but `id` and no user but that row's.
  ghost predicate Concerns(w: World, w': World, p: nat, id: string, user: string) {
    && w'.procs - {p} == w.procs - {p} && w'.reqs - {id} == w.reqs - {id}
    && id in w.reqs && id in w'.reqs && w.reqs[id].username == user && w'.reqs[id].username == user
    && w'.active - {user} == w.active - {user}
    && (p in w.procs ==> OfRow(w.procs[p], id, user))
    && (p in w'.procs ==> OfRow(w'.procs[p], id, user))
  }

  ghost predicate OfRow(proc: Proc, id: string, user: string) {
    && (proc.Granting? ==> proc.req.username == user)
    && (forall j :: Leaving(proc, j) ==> j == id)
  }

  lemma SameRow(w: World, w': World, id: string, j: string)
    requires w'.reqs - {id} == w.reqs - {id} && j != id
    ensures j in w'.reqs <==> j in w.reqs
    ensures j in w.reqs ==> w'.reqs[j] == w.reqs[j]
  {
    assert j in w.reqs - {id} <==> j in w.reqs;
    assert j in w'.reqs - {id} <==> j in w'.reqs;
    if j in w.reqs {
      assert (w.reqs - {id})[j] == w.reqs[j];
    }
  }

  // What accounts for a user: the row in question, other rows, the approve in question, other approves.
  lemma CoveredBy(w: World, p: nat, id: string, u: string)
    ensures CoveredUser(w, u) <==> Vouches(w, id, u) || OtherRow(w, id, u) || InGrant(w, p, u) || OtherGrant(w, p, u)
    ensures Vouches(w, id, u) <==>
            && id in w.reqs && w.reqs[id].status == Approved && w.reqs[id].username == u
            && !LeftByOther(w, p, id) && (p in w.procs ==> !Leaving(w.procs[p], id))
  {
    hide Leaving;
  }

  lemma OthersStay(w: World, w': World, p: nat, u: string)
    requires w'.procs - {p} == w.procs - {p}
    ensures OtherGrant(w', p, u) <==> OtherGrant(w, p, u)
    ensures forall j :: LeftByOther(w', p, j) <==> LeftByOther(w, p, j)
  {
    hide Leaving;
    forall q | q != p ensures (q in w'.procs <==> q in w.procs) && (q in w.procs ==> w'.procs[q] == w.procs[q]) {
      SameOthers(w, w', p, q);
    }
    forall q | q != p ensures InGrant(w', q, u) <==> InGrant(w, q, u) {}
  }

  lemma RowsStay(w: World, w': World, p: nat, id: string, user: string, u: string)
    requires Concerns(w, w', p, id, user)
    ensures OtherRow(w', id, u) <==> OtherRow(w, id, u)
  {
    hide Leaving;
    OthersStay(w, w', p, u);
    forall j | j != id ensures Vouches(w', j, u) <==> Vouches(w, j, u) {
      SameRow(w, w', id, j);
      CoveredBy(w, p, j, u);
      CoveredBy(w', p, j, u);
    }
  }

  // So after the step all members are covered exactly when that user is.
  lemma OnlyThatUser(w: World, w': World, p: nat, id: string, user: string)
    requires Concerns(w, w', p, id, user) && AllCovered(w)
    ensures AllCovered(w') <==> (user in w'.active ==> CoveredUser(w', user))
  {
    forall u | u != user ensures (u in w'.active <==> u in w.active) && (CoveredUser(w', u) <==> CoveredUser(w, u)) {
      assert u in w.active - {user} <==> u in w.active;
      assert u in w'.active - {user} <==> u in w'.active;
      hide CoveredUser, OtherRow, OtherGrant, LeftByOther;
      OthersStay(w, w', p, u);
      RowsStay(w, w', p, id, user, u);
      CoveredBy(w, p, id, u);
      CoveredBy(w', p, id, u);
    }
    hide CoveredUser;
  }

  // A step that leaves rows and members alone, by an operation that holds nothing half done.
  lemma NobodyConcerned(w: World, w': World, p: nat)
    requires w'.procs - {p} == w.procs - {p} && w'.reqs == w.reqs && w'.active == w.active
    requires p in w.procs ==> !w.procs[p].Granting? && forall j :: !Leaving(w.procs[p], j)
    requires p in w'.procs ==> !w'.procs[p].Granting? && forall j :: !Leaving(w'.procs[p], j)
    ensures AllCovered(w') <==> AllCovered(w)
  {
    forall u ensures CoveredUser(w', u) <==> CoveredUser(w, u) {
      OthersStay(w, w', p, u);
      forall j ensures Vouches(w', j, u) <==> Vouches(w, j, u) {
        CoveredBy(w, p, j, u);
        CoveredBy(w', p, j, u);
      }
      forall q ensures InGrant(w', q, u) <==> InGrant(w, q, u) {
        if q != p { SameOthers(w, w', p, q); }
      }
    }
    hide CoveredUser;
  }

  lemma RootOf(w: World, p: nat, r: Request)
    requires Rooted(w) && p in w.procs && r in Snapshot(w.procs[p])
    ensures r.id in w.reqs && w.reqs[r.id].id == r.id && w.reqs[r.id].username == r.username
  {}

  lemma ConcernsHead(cfg: Config, w: World, p: nat, outcome: GroupOutcome, at: Instant, plan: seq<string>)
    requires Rooted(w) && p in w.procs && !Idle(w.procs[p])
    ensures var r := Head(w.procs[p]);
            Concerns(w, Advance(cfg, w, p, w.procs[p], outcome, at, plan), p, r.id, r.username)
  {
    hide Rooted, Snapshot, OverdueRows;
    HeadInHand(w.procs[p]);
    RootOf(w, p, Head(w.procs[p]));
  }

  // What the call leaves to be decided: its user, before and after.
  lemma OnlyHeadsUser(cfg: Config, w: World, p: nat, outcome: GroupOutcome, at: Instant, plan: seq<string>)
    requires Rooted(w) && AllCovered(w) && p in w.procs && !Idle(w.procs[p])
    ensures var w', r := Advance(cfg, w, p, w.procs[p], outcome, at, plan), Head(w.procs[p]);
            && r.id in w.reqs && w.reqs[r.id].username == r.username
            && (AllCovered(w') <==> (r.username in w'.active ==> CoveredUser(w', r.username)))
            && (r.username in w.active ==> CoveredUser(w, r.username))
            && (CoveredUser(w, r.username) <==>
                  Vouches(w, r.id, r.username) || InGrant(w, p, r.username) || OtherRow(w, r.id, r.username) || OtherGrant(w, p, r.username))
            && (CoveredUser(w', r.username) <==>
                  Vouches(w', r.id, r.username) || InGrant(w', p, r.username) || OtherRow(w, r.id, r.username) || OtherGrant(w, p, r.username))
            && (Vouches(w, r.id, r.username) <==>
                  w.reqs[r.id].status == Approved && !LeftByOther(w, p, r.id) && !Leaving(w.procs[p], r.id))
            && (Vouches(w', r.id, r.username) <==>
                  && r.id in w'.reqs && w'.reqs[r.id].status == Approved && w'.reqs[r.id].username == r.username
                  && !LeftByOther(w, p, r.id) && (p in w'.procs ==> !Leaving(w'.procs[p], r.id)))
  {
    var w', r := Advance(cfg, w, p, w.procs[p], outcome, at, plan), Head(w.procs[p]);
    HeadInHand(w.procs[p]);
    RootOf(w, p, r);
    ConcernsHead(cfg, w, p, outcome, at, plan);
    OnlyThatUser(w, w', p, r.id, r.username);
    assert r.username in w.active ==> CoveredUser(w, r.username);
    hide Advance, AllCovered, CoveredUser, Vouches, OtherRow, OtherGrant, LeftByOther, Concerns, Rooted, Leaving, InGrant;
    OthersStay(w, w', p, r.username);
    RowsStay(w, w', p, r.id, r.username, r.username);
    CoveredBy(w, p, r.id, r.username);
    CoveredBy(w', p, r.id, r.username);
  }

  lemma ApproveUncovers(cfg: Config, w: World, p: nat, outcome: GroupOutcome, at: Instant, plan: seq<string>)
    requires Rooted(w) && AllCovered(w) && p in w.procs && (w.procs[p].Approving? || w.procs[p].Granting?)
    ensures AllCovered(Advance(cfg, w, p, w.procs[p], outcome, at, plan)) <==> !Uncovers(w, Call(p, outcome, at, plan))
  {
    OnlyHeadsUser(cfg, w, p, outcome, at, plan);
    hide Rooted, AllCovered, CoveredUser, Vouches, OtherRow, OtherGrant, LeftByOther;
  }

  lemma ExpireUncovers(cfg: Config, w: World, p: nat, outcome: GroupOutcome, at: Instant, plan: seq<string>)
    requires Rooted(w) && AllCovered(w) && p in w.procs && (w.procs[p].Expiring? || (w.procs[p].Sweeping? && w.procs[p].rest != []))
    ensures AllCovered(Advance(cfg, w, p, w.procs[p], outcome, at, plan)) <==> !Uncovers(w, Call(p, outcome, at, plan))
  {
    OnlyHeadsUser(cfg, w, p, outcome, at, plan);
    hide Rooted, AllCovered, CoveredUser, Vouches, OtherRow, OtherGrant, LeftByOther;
  }

  lemma ReleaseUncovers(cfg: Config, w: World, p: nat, outcome: GroupOutcome, at: Instant, plan: seq<string>)
    requires Rooted(w) && AllCovered(w) && p in w.procs && (w.procs[p].Releasing? || w.procs[p].Removed?)
    ensures AllCovered(Advance(cfg, w, p, w.procs[p], outcome, at, plan))
  {
    OnlyHeadsUser(cfg, w, p, outcome, at, plan);
    hide Rooted, AllCovered, CoveredUser, Vouches, OtherRow, OtherGrant, LeftByOther;
  }

  lemma RevokeUncovers(cfg: Config, w: World, p: nat, outcome: GroupOutcome, at: Instant, plan: seq<string>)
    requires Rooted(w) && AllCovered(w) && p in w.procs && (w.procs[p].Revoking? || w.procs[p].Revoked?) && w.procs[p].rest != []
    ensures AllCovered(Advance(cfg, w, p, w.procs[p], outcome, at, plan))
  {
    OnlyHeadsUser(cfg, w, p, outcome, at, plan);
    hide Rooted, AllCovered, CoveredUser, Vouches, OtherRow, OtherGrant, LeftByOther;
  }

  lemma CallUncoversExactly(cfg: Config, w: World, p: nat, outcome: GroupOutcome, at: Instant, plan: seq<string>)
    requires Rooted(w) && AllCovered(w) && p in w.procs
    ensures AllCovered(Advance(cfg, w, p, w.procs[p], outcome, at, plan)) <==> !Uncovers(w, Call(p, outcome, at, plan))
  {
    hide Rooted, AllCovered, OverdueRows;
    var proc := w.procs[p];
    if Idle(proc) {
      NobodyConcerned(w, Advance(cfg, w, p, proc, outcome, at, plan), p);
    } else {
      hide Advance;
      match proc
      case Approving(_, _, _, _) => ApproveUncovers(cfg, w, p, outcome, at, plan);
      case Granting(_, _, _, _) => ApproveUncovers(cfg, w, p, outcome, at, plan);
      case Expiring(_) => ExpireUncovers(cfg, w, p, outcome, at, plan);
      case Sweeping(_, _) => ExpireUncovers(cfg, w, p, outcome, at, plan);
      case Releasing(_) => ReleaseUncovers(cfg, w, p, outcome, at, plan);
      case Removed(_) => ReleaseUncovers(cfg, w, p, outcome, at, plan);
      case Revoking(_, _) => RevokeUncovers(cfg, w, p, outcome, at, plan);
      case Revoked(_, _) => RevokeUncovers(cfg, w, p, outcome, at, plan);
    }
  }

  lemma RestartUncoversExactly(w: World)
    requires AllCovered(w)
    ensures AllCovered(w.(procs := map[])) <==> !Uncovers(w, Restart)
  {
    var w' := w.(procs := map[]);
    forall u ensures CoveredUser(w', u) <==> HasApprovedRow(w, u) {
      forall id | id in w.reqs && w.reqs[id].status == Approved && w.reqs[id].username == u ensures Vouches(w', id, u) {}
    }
    hide CoveredUser, HasApprovedRow;
  }

  lemma InsertCovers(w: World, req: Request)
    requires Rooted(w) && AllCovered(w) && req.id !in w.reqs
    ensures AllCovered(w.(reqs := w.reqs[req.id := req]))
  {
    hide Rooted;
    var w' := w.(reqs := w.reqs[req.id := req]);
    forall u | u in w'.active ensures CoveredUser(w', u) {
      if id :| Vouches(w, id, u) {
        assert Vouches(w', id, u);
      } else {
        var q :| InGrant(w, q, u);
        assert InGrant(w', q, u);
      }
    }
  }

  // A move, whatever it is and whatever fails, leaves some member uncovered if and only if it is one
  // of those.
  lemma UncoversExactly(cfg: Config, w: World, m: Move)
    requires Rooted(w) && AllCovered(w)
    ensures AllCovered(Next(cfg, w, m)) <==> !Uncovers(w, m)
  {
    hide AllCovered, Rooted, OverdueRows;
    match m
    case Call(p, outcome, at, plan) =>
      hide Advance;
      if p in w.procs { CallUncoversExactly(cfg, w, p, outcome, at, plan); }
    case Restart => RestartUncoversExactly(w);
    case Insert(_, req) => if req.id !in w.reqs { InsertCovers(w, req); }
    case BeginApprove(p, _, _, _, _) => if p !in w.procs { NobodyConcerned(w, Next(cfg, w, m), p); }
    case BeginRelease(p, _) => if p !in w.procs { NobodyConcerned(w, Next(cfg, w, m), p); }
    case BeginReconcile(p, _, _) => if p !in w.procs { NobodyConcerned(w, Next(cfg, w, m), p); }
  }

  // ----- every move keeps rows and copies in step -----

  // At most the rest of the row `id` changes, and operation `p` goes on with copies of stored rows.
  lemma RootedAfter(w: World, w': World, p: nat)
    requires Rooted(w) && w'.procs - {p} == w.procs - {p}
    requires w'.reqs.Keys == w.reqs.Keys
    requires forall id :: id in w.reqs ==> w'.reqs[id].id == id && w'.reqs[id].username == w.reqs[id].username
    requires p in w'.procs ==> forall r :: r in Snapshot(w'.procs[p]) ==> r.id in w.reqs && w.reqs[r.id].username == r.username
    ensures Rooted(w')
  {
    hide Snapshot;
    forall q, r | q in w'.procs && r in Snapshot(w'.procs[q]) ensures r.id in w'.reqs && w'.reqs[r.id].username == r.username {
      assert r.id in w.reqs && w.reqs[r.id].username == r.username by {
        if q != p { SameOthers(w, w', p, q); }
      }
    }
  }

  lemma {:induction false} SelectedRows(reqs: map<string, Request>, plan: seq<string>, status: Status, col: Column, now: Instant)
    requires forall id :: id in plan ==> id in reqs
    requires forall id :: id in reqs ==> reqs[id].id == id
    ensures forall r :: r in Select(reqs, plan, status, col, now) ==> r.id in reqs && reqs[r.id] == r
  {
    hide Matches;
    if plan != [] {
      SelectedRows(reqs, plan[..|plan| - 1], status, col, now);
    }
  }

  lemma OverdueAreRows(w: World, plan: seq<string>, status: Status, col: Column, now: Instant)
    requires Rooted(w)
    ensures forall r :: r in OverdueRows(w, plan, status, col, now) ==> r.id in w.reqs && w.reqs[r.id] == r
  {
    hide Select;
    if PlanFits(w, plan) {
      SelectedRows(w.reqs, plan, status, col, now);
    }
  }

  // `reqs` is `w.reqs` with at most the row `r` is a copy of written, its id and user kept.
  predicate WritesCopy(w: World, reqs: map<string, Request>, r: Request) {
    || reqs == w.reqs
    || (r.id in reqs && reqs == w.reqs[r.id := reqs[r.id]] && reqs[r.id].id == r.id && reqs[r.id].username == r.username)
  }

  lemma WritesHead(cfg: Config, w: World, p: nat, outcome: GroupOutcome, at: Instant, plan: seq<string>)
    requires p in w.procs && !Idle(w.procs[p])
    ensures WritesCopy(w, Advance(cfg, w, p, w.procs[p], outcome, at, plan).reqs, Head(w.procs[p]))
  {
    hide OverdueRows, AfterAdd, AfterRemove, Drop;
  }

  lemma IdleWritesNothing(cfg: Config, w: World, p: nat, outcome: GroupOutcome, at: Instant, plan: seq<string>)
    requires p in w.procs && Idle(w.procs[p])
    ensures Advance(cfg, w, p, w.procs[p], outcome, at, plan).reqs == w.reqs
  {
    hide OverdueRows, AfterAdd, AfterRemove, Drop, Put;
  }

  lemma LeavesOthers(cfg: Config, w: World, p: nat, outcome: GroupOutcome, at: Instant, plan: seq<string>)
    requires p in w.procs
    ensures Advance(cfg, w, p, w.procs[p], outcome, at, plan).procs - {p} == w.procs - {p}
  {
    hide OverdueRows, AfterAdd, AfterRemove, Put;
  }

  lemma CallKeepsRows(cfg: Config, w: World, p: nat, outcome: GroupOutcome, at: Instant, plan: seq<string>)
    requires Rooted(w) && p in w.procs
    ensures var w' := Advance(cfg, w, p, w.procs[p], outcome, at, plan);
            && w'.procs - {p} == w.procs - {p} && w'.reqs.Keys == w.reqs.Keys
            && forall id :: id in w.reqs ==> w'.reqs[id].id == id && w'.reqs[id].username == w.reqs[id].username
  {
    hide Advance, Snapshot, Head;
    LeavesOthers(cfg, w, p, outcome, at, plan);
    if Idle(w.procs[p]) {
      IdleWritesNothing(cfg, w, p, outcome, at, plan);
    } else {
      WritesHead(cfg, w, p, outcome, at, plan);
      HeadInHand(w.procs[p]);
      RootOf(w, p, Head(w.procs[p]));
    }
  }

  lemma CallKeepsCopies(cfg: Config, w: World, p: nat, outcome: GroupOutcome, at: Instant, plan: seq<string>)
    requires p in w.procs
    ensures var w' := Advance(cfg, w, p, w.procs[p], outcome, at, plan);
            p in w'.procs ==> forall r :: r in Snapshot(w'.procs[p]) ==>
              r in Snapshot(w.procs[p])
              || (w.procs[p].Querying? && r in OverdueRows(w, plan, Approved, ActiveExpiresAt, w.procs[p].now))
  {
    hide OverdueRows, Put, AfterAdd, AfterRemove;
  }

  lemma CallIsRooted(cfg: Config, w: World, p: nat, outcome: GroupOutcome, at: Instant, plan: seq<string>)
    requires Rooted(w) && p in w.procs
    ensures Rooted(Advance(cfg, w, p, w.procs[p], outcome, at, plan))
  {
    var w' := Advance(cfg, w, p, w.procs[p], outcome, at, plan);
    hide Advance, OverdueRows, Snapshot;
    CallKeepsRows(cfg, w, p, outcome, at, plan);
    CallKeepsCopies(cfg, w, p, outcome, at, plan);
    if w.procs[p].Querying? {
      OverdueAreRows(w, plan, Approved, ActiveExpiresAt, w.procs[p].now);
    }
    RootedAfter(w, w', p);
  }

  // Whatever happens, in whatever order.
  lemma NextIsRooted(cfg: Config, w: World, m: Move)
    requires Rooted(w)
    ensures Rooted(Next(cfg, w, m))
  {
    hide OverdueRows, Late;
    if m.Call? {
      hide Rooted, Advance;
      if m.p in w.procs { CallIsRooted(cfg, w, m.p, m.outcome, m.at, m.plan); }
    } else if m.BeginApprove? || m.BeginRelease? || m.BeginReconcile? {
      BeginIsRooted(cfg, w, m);
    }
  }

  lemma BeginIsRooted(cfg: Config, w: World, m: Move)
    requires Rooted(w) && (m.BeginApprove? || m.BeginRelease? || m.BeginReconcile?)
    ensures Rooted(Next(cfg, w, m))
  {
    hide OverdueRows, Late, Advance;
    if m.BeginReconcile? {
      OverdueAreRows(w, m.plan, Pending, RequestExpiresAt, m.now);
    }
    assert forall id :: id in w.reqs ==> w.reqs[id].id == id;
    hide Rooted;
    if m.p !in w.procs { RootedAfter(w, Next(cfg, w, m), m.p); }
  }

  // ----- whole interleavings -----

  ghost predicate NeverUncovers(cfg: Config, w: World, moves: seq<Move>)
    decreases |moves|
  {
    moves == [] || (!Uncovers(w, moves[0]) && NeverUncovers(cfg, Next(cfg, w, moves[0]), moves[1..]))
  }

  ghost predicate CoveredAlways(cfg: Config, w: World, moves: seq<Move>)
    decreases |moves|
  {
    AllCovered(w) && (moves == [] || CoveredAlways(cfg, Next(cfg, w, moves[0]), moves[1..]))
  }

  // Any interleaving whatsoever, with any calls failing and any restarts, accounts for every member at
  // all times if and only if no move of it uncovers one.
  lemma {:induction false} InterleavingCoversExactly(cfg: Config, w: World, moves: seq<Move>)
    requires Rooted(w) && AllCovered(w)
    ensures CoveredAlways(cfg, w, moves) <==> NeverUncovers(cfg, w, moves)
    decreases |moves|
  {
    hide Next, Rooted, AllCovered, Uncovers;
    if moves != [] {
      var w' := Next(cfg, w, moves[0]);
      UncoversExactly(cfg, w, moves[0]);
      NextIsRooted(cfg, w, moves[0]);
      if AllCovered(w') {
        InterleavingCoversExactly(cfg, w', moves[1..]);
      }
    }
  }

  lemma {:induction false} ThroughoutToTheEnd(cfg: Config, w: World, moves: seq<Move>)
    ensures CoveredAlways(cfg, w, moves) ==> AllCovered(RunMoves(cfg, w, moves))
    decreases |moves|
  {
    hide Next, AllCovered;
    if moves != [] {
      ThroughoutToTheEnd(cfg, Next(cfg, w, moves[0]), moves[1..]);
    }
  }

  // ----- the interleavings in which that cannot happen -----

  ghost predicate Invariant(w: World) {
    Usable(w) && AllCovered(w)
  }

  lemma UsableIsRooted(w: World)
    requires Usable(w)
    ensures Rooted(w)
  {
    hide Snapshot, Fits;
    forall p, r | p in w.procs && r in Snapshot(w.procs[p]) ensures r.id in w.reqs && w.reqs[r.id].username == r.username {
      InHand(w, p, r);
      FitsKeepsUser(w.procs[p], r, w.reqs[r.id]);
    }
  }

  lemma FitsKeepsUser(proc: Proc, r: Request, now: Request)
    requires r in Snapshot(proc) && Fits(proc, r, now)
    ensures now.username == r.username
  {}

  // Nobody is leaving a pending row.
  lemma PendingIsNotLeft(w: World, id: string)
    requires Usable(w) && id in w.reqs && w.reqs[id].status == Pending
    ensures forall q :: q in w.procs ==> !Leaving(w.procs[q], id)
  {
    hide Usable;
    forall q | q in w.procs ensures !Leaving(w.procs[q], id) {
      if Leaving(w.procs[q], id) {
        InHand(w, q, if w.procs[q].Removed? then w.procs[q].req else w.procs[q].rest[0]);
      }
    }
  }

  // A member whose row is to be expired is accounted for by something else: that row is pending or
  // expired, and no approve of it is under way.
  lemma ExpiryIsNotLast(w: World, p: nat, r: Request, outcome: GroupOutcome)
    requires Invariant(w) && p in w.procs && (w.procs[p].Expiring? || w.procs[p].Sweeping?) && r in Snapshot(w.procs[p])
    ensures !ExpiresLast(w, p, r, outcome)
  {
    hide Usable;
    InHand(w, p, r);
    if r.username in w.active {
      assert CoveredUser(w, r.username);
      hide CoveredUser, OtherRow, OtherGrant;
      CoveredBy(w, p, r.id, r.username);
    }
  }

  lemma AllowedCovers(w: World, m: Move)
    requires Invariant(w) && Allowed(w, m)
    ensures !Uncovers(w, m)
  {
    hide OverdueRows, Enumerates, NoGrantOn, Free;
    if m.Call? && m.p in w.procs {
      var proc := w.procs[m.p];
      if proc.Granting? {
        hide Uncovers;
        GrantCovers(w, m);
      } else if proc.Expiring? || (proc.Sweeping? && proc.rest != []) {
        HeadInHand(proc);
        hide Invariant, ExpiresLast;
        ExpiryIsNotLast(w, m.p, Head(proc), m.outcome);
      }
    } else if m.Restart? {
      hide Usable;
      forall u | u in w.active ensures HasApprovedRow(w, u) {
        assert CoveredUser(w, u);
      }
    }
  }

  lemma GrantCovers(w: World, m: Move)
    requires Usable(w) && m.Call? && m.p in w.procs && w.procs[m.p].Granting? && m.outcome == Done
    ensures !Uncovers(w, m)
  {
    hide Usable;
    var req := w.procs[m.p].req;
    InHand(w, m.p, req);
    PendingIsNotLeft(w, req.id);
  }

  // Every allowed call, of any operation, keeps the invariant.
  lemma NextKeepsInvariant(cfg: Config, w: World, m: Move)
    requires Invariant(w) && Allowed(w, m)
    ensures Invariant(Next(cfg, w, m))
  {
    hide Usable, AllCovered, Uncovers, Next, Disjoint, Settles;
    NextIsUsable(cfg, w, m);
    UsableIsRooted(w);
    AllowedCovers(w, m);
    UncoversExactly(cfg, w, m);
  }

  // Coverage under interleaving: in every reachable state of an allowed interleaving, each member has
  // an approved row that is not half released, or a half finished approve.
  lemma {:induction false} CoverageUnderInterleaving(cfg: Config, w: World, moves: seq<Move>)
    requires Invariant(w) && AllowedRun(cfg, w, moves)
    ensures Invariant(RunMoves(cfg, w, moves))
    ensures forall u :: u in RunMoves(cfg, w, moves).active ==> CoveredUser(RunMoves(cfg, w, moves), u)
    ensures NeverUncovers(cfg, w, moves) && CoveredAlways(cfg, w, moves)
    decreases |moves|
  {
    hide Next, Usable, CoveredUser, Allowed, Uncovers;
    if moves != [] {
      AllowedCovers(w, moves[0]);
      NextKeepsInvariant(cfg, w, moves[0]);
      CoverageUnderInterleaving(cfg, Next(cfg, w, moves[0]), moves[1..]);
    }
  }
}
