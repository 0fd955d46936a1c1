/** What every interleaving does to the rows, and what the copies that operations hold of them stay good for. */
module StepwiseRows {
  import opened Wrappers
  import opened Timestamp
  import opened Deadlines
  import opened Requests
  import opened Storage
  import opened Protocol
  import opened Interleaving
  import Lifecycle

  // The moves of a row under interleaving. An ended row may be ended again, which changes nothing
  // but the time it was released.
  predicate Shifts(r: Request, r': Request) {
    || r' == r
    || (r.status == Pending && r'.status == Approved && SameIdentity(r, r'))
    || (r.status == Pending && r' == ExpiredRow(r))
    || (r.status in {Approved, Released} && r'.releasedAt.Some? && r' == ReleasedRow(r, r'.releasedAt.value))
  }

  // ----- strengthening -----

  // How the stored row `now` stands to the copy `r` an operation has in hand: an approve's row is
  // unchanged, a row to expire may have been expired since, a row to release released.
  predicate Fits(proc: Proc, r: Request, now: Request) {
    match proc
    case Approving(_, _, _, _) => r.status == Pending && now == r
    case Granting(_, _, _, _) => r.status == Pending && now == r
    case Expiring(_) => Lapses(r, now)
    case Sweeping(_, _) => Lapses(r, now)
    case Querying(_) => true
    case Releasing(_) => EndsAs(r, now)
    case Removed(_) => EndsAs(r, now)
    case Revoking(_, _) => EndsAs(r, now)
    case Revoked(_, _) => EndsAs(r, now)
  }

  predicate Lapses(r: Request, now: Request) {
    r.status == Pending && (now == r || now == ExpiredRow(r))
  }

  predicate EndsAs(r: Request, now: Request) {
    r.status == Approved && (now == r || (now.releasedAt.Some? && now == ReleasedRow(r, now.releasedAt.value)))
  }

  predicate Current(reqs: map<string, Request>, proc: Proc) {
    forall r :: r in Snapshot(proc) ==> r.id in reqs && Fits(proc, r, reqs[r.id])
  }

  // An approve shares its row with nobody.
  predicate Apart(a: Proc, b: Proc) {
    Grants(a) ==> forall r :: r in Snapshot(b) ==> r.id != a.req.id
  }

  predicate Usable(w: World) {
    && (forall id :: id in w.reqs ==> w.reqs[id].id == id)
    && (forall p :: p in w.procs ==> Current(w.reqs, w.procs[p]))
    && (forall p, q :: p in w.procs && q in w.procs && p != q ==> Apart(w.procs[p], w.procs[q]))
  }

  // ----- what a call may do to the rows -----

  // Process `p` writes at most row `id`, which it has in hand and shifts; only a grant approves.
  ghost predicate WritesHeld(w: World, reqs: map<string, Request>, p: nat, id: string) {
    && p in w.procs && (exists r :: r in Snapshot(w.procs[p]) && r.id == id) && id in w.reqs && id in reqs
    && reqs == w.reqs[id := reqs[id]] && reqs[id].id == id && Shifts(w.reqs[id], reqs[id])
    && (reqs[id].status == Approved && w.reqs[id].status == Pending ==> Grants(w.procs[p]))
  }

  ghost predicate OneWrite(w: World, w': World, p: nat) {
    w'.reqs == w.reqs || exists id :: WritesHeld(w, w'.reqs, p, id)
  }

  // Copies that fitted a row still fit it after a shift that is no approval.
  lemma FitsAfterShift(proc: Proc, r: Request, now: Request, now': Request)
    requires Fits(proc, r, now) && Shifts(now, now') && !Grants(proc)
    requires !(now.status == Pending && now'.status == Approved)
    ensures Fits(proc, r, now')
  {}

  // What `p` wrote, `q` can still work with.
  lemma OthersStayCurrent(w: World, w': World, p: nat, q: nat)
    requires Usable(w) && OneWrite(w, w', p) && q in w.procs && q != p
    ensures Current(w'.reqs, w.procs[q])
  {
    hide Snapshot, Fits, Shifts;
    assert Current(w.reqs, w.procs[q]);
    if w'.reqs != w.reqs {
      var id :| WritesHeld(w, w'.reqs, p, id);
      assert Apart(w.procs[p], w.procs[q]) && Apart(w.procs[q], w.procs[p]);
      forall r | r in Snapshot(w.procs[q]) && r.id == id ensures Fits(w.procs[q], r, w'.reqs[id]) {
        GrantHasRow(w.procs[p]);
        GrantHasRow(w.procs[q]);
        FitsAfterShift(w.procs[q], r, w.reqs[id], w'.reqs[id]);
      }
    }
  }

  lemma GrantHasRow(proc: Proc)
    ensures Grants(proc) ==> Snapshot(proc) == [proc.req]
  {}

  // The step of process `p`: at most one write, and then it has less or the same in hand, or rows it
  // may take.
  ghost predicate MovedOn(w: World, w': World, p: nat) {
    && OneWrite(w, w', p)
    && w'.procs - {p} == w.procs - {p}
    && (p in w'.procs ==> Current(w'.reqs, w'.procs[p]))
    && (p in w'.procs ==> forall q :: q in w.procs && q != p ==> Apart(w'.procs[p], w.procs[q]) && Apart(w.procs[q], w'.procs[p]))
  }

  lemma SameOthers(w: World, w': World, p: nat, q: nat)
    requires w'.procs - {p} == w.procs - {p} && q != p
    ensures q in w'.procs <==> q in w.procs
    ensures q in w.procs ==> w'.procs[q] == w.procs[q]
  {
    assert q in w.procs - {p} <==> q in w.procs;
    assert q in w'.procs - {p} <==> q in w'.procs;
    if q in w.procs {
      assert (w.procs - {p})[q] == w.procs[q];
    }
  }

  lemma MovedOnIsUsable(w: World, w': World, p: nat)
    requires Usable(w) && MovedOn(w, w', p)
    ensures Usable(w')
  {
    hide Current, Apart, Shifts, Snapshot;
    forall q | q in w'.procs ensures q == p || (q in w.procs && w'.procs[q] == w.procs[q]) {
      if q != p { SameOthers(w, w', p, q); }
    }
    forall q | q in w'.procs ensures Current(w'.reqs, w'.procs[q]) {
      if q != p {
        OthersStayCurrent(w, w', p, q);
      }
    }
  }

  // ----- the calls, one kind at a time -----

  lemma Dropped(w: World, w': World, p: nat)
    requires w'.procs == Drop(w.procs, p) && OneWrite(w, w', p)
    ensures MovedOn(w, w', p)
  {
    hide Current, Apart, OneWrite;
  }

  // The process goes on with some of what it had in hand, in the same role.
  lemma GoesOn(w: World, w': World, p: nat, proc: Proc)
    requires Usable(w) && p in w.procs && w'.procs == w.procs[p := proc] && OneWrite(w, w', p)
    requires Current(w'.reqs, proc)
    requires forall r :: r in Snapshot(proc) ==> r in Snapshot(w.procs[p])
    requires Grants(proc) ==> Grants(w.procs[p]) && proc.req == w.procs[p].req
    ensures MovedOn(w, w', p)
  {
    hide Current, Snapshot, OneWrite;
    forall q | q in w.procs && q != p ensures Apart(proc, w.procs[q]) && Apart(w.procs[q], proc) {
      assert Apart(w.procs[p], w.procs[q]) && Apart(w.procs[q], w.procs[p]);
    }
  }

  lemma InHand(w: World, p: nat, r: Request)
    requires Usable(w) && p in w.procs && r in Snapshot(w.procs[p])
    ensures r.id in w.reqs && Fits(w.procs[p], r, w.reqs[r.id]) && w.reqs[r.id].id == r.id
  {
    assert Current(w.reqs, w.procs[p]);
  }

  // The row the next call of an operation is about.
  function Head(proc: Proc): Request
    requires !proc.Querying?
    requires proc.Sweeping? || proc.Revoking? || proc.Revoked? ==> proc.rest != []
  {
    if proc.Sweeping? || proc.Revoking? || proc.Revoked? then proc.rest[0] else proc.req
  }

  predicate Idle(proc: Proc) {
    proc.Querying? || ((proc.Sweeping? || proc.Revoking? || proc.Revoked?) && proc.rest == [])
  }

  lemma HeadInHand(proc: Proc)
    requires !Idle(proc)
    ensures Head(proc) in Snapshot(proc)
  {}

  lemma WroteHeld(w: World, w': World, p: nat, r: Request, r': Request)
    requires Usable(w) && p in w.procs && r in Snapshot(w.procs[p]) && r.id in w.reqs && r'.id == r.id
    requires w'.reqs == w.reqs[r.id := r'] && Shifts(w.reqs[r.id], r')
    requires r'.status == Approved && w.reqs[r.id].status == Pending ==> Grants(w.procs[p])
    ensures OneWrite(w, w', p)
  {
    hide Shifts, Snapshot, Grants;
    assert WritesHeld(w, w'.reqs, p, r.id);
  }

  lemma ApproveCall(cfg: Config, w: World, p: nat, outcome: GroupOutcome, at: Instant, plan: seq<string>)
    requires Usable(w) && p in w.procs && (w.procs[p].Approving? || w.procs[p].Granting? || w.procs[p].Expiring?)
    ensures MovedOn(w, Advance(cfg, w, p, w.procs[p], outcome, at, plan), p)
  {
    hide MovedOn, Usable, OneWrite, Current;
    var proc := w.procs[p];
    var w' := Advance(cfg, w, p, proc, outcome, at, plan);
    InHand(w, p, proc.req);
    NoWrite(w, w', p);
    if w'.reqs != w.reqs {
      WroteHeld(w, w', p, proc.req, w'.reqs[proc.req.id]);
    }
    if p in w'.procs {
      StillCurrent(w.reqs, w'.procs[p], proc.req);
      GoesOn(w, w', p, w'.procs[p]);
    } else {
      Dropped(w, w', p);
    }
  }

  lemma NoWrite(w: World, w': World, p: nat)
    ensures w'.reqs == w.reqs ==> OneWrite(w, w', p)
  {}

  lemma StillCurrent(reqs: map<string, Request>, proc: Proc, r: Request)
    requires Snapshot(proc) == [r] && r.id in reqs && Fits(proc, r, reqs[r.id])
    ensures Current(reqs, proc)
  {}

  lemma ReleaseCall(cfg: Config, w: World, p: nat, outcome: GroupOutcome, at: Instant, plan: seq<string>)
    requires Usable(w) && p in w.procs && (w.procs[p].Releasing? || w.procs[p].Removed?)
    ensures MovedOn(w, Advance(cfg, w, p, w.procs[p], outcome, at, plan), p)
  {
    hide MovedOn, Usable, OneWrite, Current;
    var proc := w.procs[p];
    var w' := Advance(cfg, w, p, proc, outcome, at, plan);
    InHand(w, p, proc.req);
    NoWrite(w, w', p);
    if w'.reqs != w.reqs {
      WroteHeld(w, w', p, proc.req, ReleasedRow(proc.req, at));
    }
    if p in w'.procs {
      StillCurrent(w.reqs, w'.procs[p], proc.req);
      GoesOn(w, w', p, w'.procs[p]);
    } else {
      Dropped(w, w', p);
    }
  }

  lemma InTail(rest: seq<Request>)
    requires rest != []
    ensures rest[0] in rest && forall r :: r in rest[1..] ==> r in rest
  {}

  // The rest of a batch is as current as the whole was, whatever row was written.
  lemma TailIsCurrent(w: World, w': World, p: nat, proc: Proc)
    requires Usable(w) && p in w.procs && OneWrite(w, w', p) && !Grants(w.procs[p])
    requires forall r :: r in Snapshot(proc) ==> r in Snapshot(w.procs[p])
    requires forall r, now :: Fits(w.procs[p], r, now) ==> Fits(proc, r, now)
    ensures Current(w'.reqs, proc)
  {
    hide Snapshot, Fits, Shifts;
    assert Current(w.reqs, w.procs[p]);
    forall r | r in Snapshot(proc) ensures r.id in w'.reqs && Fits(proc, r, w'.reqs[r.id]) {
      assert Fits(w.procs[p], r, w.reqs[r.id]);
      if w'.reqs != w.reqs {
        var id :| WritesHeld(w, w'.reqs, p, id);
        if id == r.id {
          FitsAfterShift(w.procs[p], r, w.reqs[id], w'.reqs[id]);
        }
      }
    }
  }

  // A pass goes on to its next row, or leaves the loop, after at most one write.
  lemma PassGoesOn(w: World, w': World, p: nat)
    requires Usable(w) && p in w.procs && !Grants(w.procs[p]) && OneWrite(w, w', p)
    requires w'.procs == Drop(w.procs, p) || (p in w'.procs && w'.procs == w.procs[p := w'.procs[p]])
    requires p in w'.procs ==> !Grants(w'.procs[p]) && (forall r :: r in Snapshot(w'.procs[p]) ==> r in Snapshot(w.procs[p]))
    requires p in w'.procs ==> forall r, now :: Fits(w.procs[p], r, now) ==> Fits(w'.procs[p], r, now)
    ensures MovedOn(w, w', p)
  {
    hide MovedOn, Usable, OneWrite, Current, Fits, Snapshot, Grants;
    if w'.procs == Drop(w.procs, p) {
      Dropped(w, w', p);
    } else {
      TailIsCurrent(w, w', p, w'.procs[p]);
      GoesOn(w, w', p, w'.procs[p]);
    }
  }

  lemma SweepCall(cfg: Config, w: World, p: nat, outcome: GroupOutcome, at: Instant, plan: seq<string>)
    requires Usable(w) && p in w.procs && w.procs[p].Sweeping?
    ensures MovedOn(w, Advance(cfg, w, p, w.procs[p], outcome, at, plan), p)
  {
    hide MovedOn, Usable, OneWrite;
    var rest := w.procs[p].rest;
    var w' := Advance(cfg, w, p, w.procs[p], outcome, at, plan);
    if rest != [] {
      InTail(rest);
      InHand(w, p, rest[0]);
    }
    NoWrite(w, w', p);
    if w'.reqs != w.reqs {
      WroteHeld(w, w', p, rest[0], ExpiredRow(rest[0]));
    }
    PassGoesOn(w, w', p);
  }

  lemma RevokeCall(cfg: Config, w: World, p: nat, outcome: GroupOutcome, at: Instant, plan: seq<string>)
    requires Usable(w) && p in w.procs && (w.procs[p].Revoking? || w.procs[p].Revoked?)
    ensures MovedOn(w, Advance(cfg, w, p, w.procs[p], outcome, at, plan), p)
  {
    hide MovedOn, Usable, OneWrite;
    var rest := w.procs[p].rest;
    var w' := Advance(cfg, w, p, w.procs[p], outcome, at, plan);
    if rest != [] {
      InTail(rest);
      InHand(w, p, rest[0]);
    }
    NoWrite(w, w', p);
    if w'.reqs != w.reqs {
      WroteHeld(w, w', p, rest[0], ReleasedRow(rest[0], at));
    }
    PassGoesOn(w, w', p);
  }

  // Taking rows in hand. They fit, and no approve is under way on them; an approve takes a free row.
  lemma Takes(w: World, w': World, p: nat, proc: Proc)
    requires w'.procs == w.procs[p := proc] && w'.reqs == w.reqs && Current(w.reqs, proc)
    requires forall r :: r in Snapshot(proc) ==> NoGrantOn(w, r.id)
    requires Grants(proc) ==> Free(w, proc.req.id)
    ensures MovedOn(w, w', p)
  {
    hide Current, Snapshot;
  }

  lemma OverdueFits(w: World, plan: seq<string>, status: Status, col: Column, now: Instant)
    requires Usable(w) && Enumerates(plan, w.reqs.Keys)
    ensures forall r :: r in OverdueRows(w, plan, status, col, now) ==> r.id in w.reqs && w.reqs[r.id] == r && r.status == status
  {
    hide Select, Due;
    SelectExact(w.reqs, plan, status, col, now);
  }

  // An approved row has no approve under way.
  lemma ApprovedIsGranted(w: World, id: string)
    requires Usable(w) && id in w.reqs && w.reqs[id].status != Pending
    ensures NoGrantOn(w, id)
  {
    forall p | p in w.procs && Grants(w.procs[p]) ensures w.procs[p].req.id != id {
      InHand(w, p, w.procs[p].req);
    }
  }

  lemma QueryCall(cfg: Config, w: World, p: nat, outcome: GroupOutcome, at: Instant, plan: seq<string>)
    requires Usable(w) && p in w.procs && w.procs[p].Querying? && Enumerates(plan, w.reqs.Keys)
    ensures MovedOn(w, Advance(cfg, w, p, w.procs[p], outcome, at, plan), p)
  {
    hide MovedOn, Usable, OverdueRows, NoGrantOn;
    var batch := OverdueRows(w, plan, Approved, ActiveExpiresAt, w.procs[p].now);
    var w' := Advance(cfg, w, p, w.procs[p], outcome, at, plan);
    NoWrite(w, w', p);
    OverdueFits(w, plan, Approved, ActiveExpiresAt, w.procs[p].now);
    if outcome != Done || batch == [] {
      Dropped(w, w', p);
    } else {
      forall r | r in batch ensures NoGrantOn(w, r.id) {
        ApprovedIsGranted(w, r.id);
      }
      Takes(w, w', p, Revoking(w.procs[p].now, batch));
    }
  }

  lemma CallMovesOn(cfg: Config, w: World, p: nat, outcome: GroupOutcome, at: Instant, plan: seq<string>)
    requires Usable(w) && p in w.procs && Disjoint(w, Call(p, outcome, at, plan))
    ensures MovedOn(w, Advance(cfg, w, p, w.procs[p], outcome, at, plan), p)
  {
    hide MovedOn, Usable, Advance, Enumerates;
    match w.procs[p]
    case Approving(_, _, _, _) => ApproveCall(cfg, w, p, outcome, at, plan);
    case Granting(_, _, _, _) => ApproveCall(cfg, w, p, outcome, at, plan);
    case Expiring(_) => ApproveCall(cfg, w, p, outcome, at, plan);
    case Releasing(_) => ReleaseCall(cfg, w, p, outcome, at, plan);
    case Removed(_) => ReleaseCall(cfg, w, p, outcome, at, plan);
    case Sweeping(_, _) => SweepCall(cfg, w, p, outcome, at, plan);
    case Querying(_) => QueryCall(cfg, w, p, outcome, at, plan);
    case Revoking(_, _) => RevokeCall(cfg, w, p, outcome, at, plan);
    case Revoked(_, _) => RevokeCall(cfg, w, p, outcome, at, plan);
  }

  // ----- every step keeps the rows sound and moving forward -----

  lemma InsertIsUsable(w: World, req: Request)
    requires Usable(w) && req.id !in w.reqs
    ensures Usable(w.(reqs := w.reqs[req.id := req]))
  {
    hide Apart, Snapshot, Fits;
    var w' := w.(reqs := w.reqs[req.id := req]);
    forall p | p in w'.procs ensures Current(w'.reqs, w'.procs[p]) {
      assert Current(w.reqs, w.procs[p]);
    }
  }

  lemma FreeHasNoGrant(w: World, id: string)
    requires Free(w, id)
    ensures NoGrantOn(w, id)
  {
    forall p | p in w.procs && Grants(w.procs[p]) ensures w.procs[p].req.id != id {
      assert w.procs[p].req in Snapshot(w.procs[p]);
    }
  }

  lemma BeginMovesOn(cfg: Config, w: World, m: Move)
    requires Usable(w) && Disjoint(w, m) && (m.BeginApprove? || m.BeginRelease? || m.BeginReconcile?)
    ensures Next(cfg, w, m) == w || MovedOn(w, Next(cfg, w, m), m.p)
  {
    hide MovedOn, Usable, OverdueRows, Free, NoGrantOn, Late;
    var w' := Next(cfg, w, m);
    if w' != w {
      match m
      case BeginApprove(p, id, now, _, _) =>
        if Free(w, id) {
          FreeHasNoGrant(w, id);
        }
        KeyedRow(w, id);
        Takes(w, w', p, w'.procs[p]);
      case BeginRelease(p, id) =>
        KeyedRow(w, id);
        ApprovedIsGranted(w, id);
        Takes(w, w', p, w'.procs[p]);
      case BeginReconcile(p, now, plan) =>
        OverdueFits(w, plan, Pending, RequestExpiresAt, now);
        Takes(w, w', p, w'.procs[p]);
    }
  }

  lemma KeyedRow(w: World, id: string)
    requires Usable(w) && id in w.reqs
    ensures w.reqs[id].id == id
  {}

  lemma NextIsUsable(cfg: Config, w: World, m: Move)
    requires Usable(w) && Disjoint(w, m)
    ensures Usable(Next(cfg, w, m))
  {
    hide Usable, MovedOn, Advance;
    if m.Call? {
      CallMovesOn(cfg, w, m.p, m.outcome, m.at, m.plan);
      MovedOnIsUsable(w, Next(cfg, w, m), m.p);
    } else if m.Insert? {
      InsertIsUsable(w, m.req);
    } else if m.Restart? {
      RestartIsUsable(w);
    } else {
      hide Next, Disjoint;
      BeginMovesOn(cfg, w, m);
      if Next(cfg, w, m) != w {
        MovedOnIsUsable(w, Next(cfg, w, m), m.p);
      }
    }
  }

  lemma RestartIsUsable(w: World)
    requires Usable(w)
    ensures Usable(w.(procs := map[]))
  {}

  lemma MovedOnShifts(w: World, w': World, p: nat, id: string)
    requires MovedOn(w, w', p) && id in w.reqs
    ensures id in w'.reqs && Shifts(w.reqs[id], w'.reqs[id])
  {
    hide Current, Apart;
  }

  // Under interleaving too, whatever fails, a step moves rows only along the lifecycle.
  lemma NextShifts(cfg: Config, w: World, m: Move, id: string)
    requires Usable(w) && Disjoint(w, m) && id in w.reqs
    ensures id in Next(cfg, w, m).reqs && Shifts(w.reqs[id], Next(cfg, w, m).reqs[id])
  {
    hide MovedOn, Advance;
    if m.Call? {
      hide Usable;
      CallMovesOn(cfg, w, m.p, m.outcome, m.at, m.plan);
      MovedOnShifts(w, Next(cfg, w, m), m.p, id);
    } else if m.BeginApprove? || m.BeginRelease? || m.BeginReconcile? {
      hide Usable, Next, Disjoint;
      BeginMovesOn(cfg, w, m);
      if Next(cfg, w, m) != w {
        MovedOnShifts(w, Next(cfg, w, m), m.p, id);
      }
    }
  }

  // The operation's next call writes the row.
  predicate WritesNext(proc: Proc, id: string) {
    && !Idle(proc) && Head(proc).id == id
    && (proc.Granting? || proc.Expiring? || proc.Sweeping? || proc.Removed? || proc.Revoked?)
  }

  // A row changes exactly when a call about to write it succeeds, unless it has already expired, or was
  // already released at that very time. A released row is so written again when another release of it,
  // or pass over it, had removed the user too; the last write stays, whichever time is the later.
  lemma RowChangesExactly(cfg: Config, w: World, m: Move, id: string)
    requires Usable(w) && Disjoint(w, m) && id in w.reqs
    ensures var r, w' := w.reqs[id], Next(cfg, w, m);
            && id in w'.reqs
            && (w'.reqs[id] != r <==>
                  && m.Call? && m.outcome == Done && WritesNext(w.procs[m.p], id)
                  && r.status != Expired && (r.status == Released ==> r.releasedAt != Some(m.at)))
            && (w'.reqs[id] != r ==>
                  match w.procs[m.p]
                  case Granting(_, now, actor, notes) => r.status == Pending && w'.reqs[id] == ApprovedRow(cfg, r, now, actor, notes)
                  case Expiring(_) => r.status == Pending && w'.reqs[id] == ExpiredRow(r)
                  case Sweeping(_, _) => r.status == Pending && w'.reqs[id] == ExpiredRow(r)
                  case _ => r.status in {Approved, Released} && w'.reqs[id] == ReleasedRow(r, m.at))
  {
    hide OverdueRows, Free, NoGrantOn, Enumerates, Late, Usable;
    if m.Call? && !Idle(w.procs[m.p]) {
      HeadInHand(w.procs[m.p]);
      hide Snapshot;
      InHand(w, m.p, Head(w.procs[m.p]));
    }
  }

  // Over any such interleaving no row disappears, identity columns never change, statuses only
  // lead forward, an expired row is final, and of a released row at most the time can change.
  lemma {:induction false} RowsLeadForward(cfg: Config, w: World, moves: seq<Move>, id: string)
    requires Usable(w) && DisjointRun(cfg, w, moves) && id in w.reqs
    ensures var r, reqs := w.reqs[id], RunMoves(cfg, w, moves).reqs;
            && id in reqs && SameIdentity(r, reqs[id]) && Lifecycle.Leads(r.status, reqs[id].status)
            && (r.status in {Expired, Denied} ==> reqs[id] == r)
            && (r.status == Released ==> reqs[id].(releasedAt := r.releasedAt) == r)
    decreases |moves|
  {
    hide Next, Usable, Disjoint;
    if moves != [] {
      NextIsUsable(cfg, w, moves[0]);
      NextShifts(cfg, w, moves[0], id);
      RowsLeadForward(cfg, Next(cfg, w, moves[0]), moves[1..], id);
    }
  }
}
