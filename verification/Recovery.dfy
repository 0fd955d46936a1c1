/** A Reconcile pass cut short at any call, any number of times, and the pass that follows. */
module Recovery {
  import opened Timestamp
  import opened TextOrder
  import opened Deadlines
  import opened Requests
  import opened Storage
  import opened Protocol
  import opened Sweep

  // Where a pass stopped: before its first query; after `done` rows of its first loop; or after
  // `done` rows of its second loop, possibly with the next row's membership already removed.
  datatype Cut = BeforeQuery | InExpire(done: nat) | InRevoke(done: nat, removed: bool)

  function Prefix(batch: seq<Request>, n: nat): seq<Request> {
    if n < |batch| then batch[..n] else batch
  }

  function CutReconcile(cfg: Config, s: State, p: Pass, cut: Cut): (s': State)
    requires PlansFit(s, p)
    ensures s'.reqs.Keys == s.reqs.Keys
  {
    if cut.BeforeQuery? || !p.query then s
    else if cut.InExpire? then ExpireAll(cfg, s, Prefix(PendingBatch(s, p), cut.done), p.row)
    else
      var s1 := ExpireAll(cfg, s, PendingBatch(s, p), p.row);
      if !p.query2 then s1
      else
        var batch := ActiveBatch(s1, p);
        var s2 := RevokeAll(cfg, s1, Prefix(batch, cut.done), p.row);
        if cut.removed && cut.done < |batch|
        then s2.(active := AfterRemove(s2.active, batch[cut.done].username, p.row(batch[cut.done].id).group))
        else s2
  }

  const DEAD: Calls := Calls(false, Refused, false, false, false, false, 0)

  // The pass that makes the same calls up to the cut and fails every later one.
  function FailingFrom(cfg: Config, s: State, p: Pass, cut: Cut): Pass
    requires PlansFit(s, p)
  {
    if cut.BeforeQuery? || !p.query then p.(query := false)
    else if cut.InExpire? then
      var done := Ids(Prefix(PendingBatch(s, p), cut.done));
      p.(query2 := false, row := id => if id in done then p.row(id) else DEAD)
    else
      var s1 := ExpireAll(cfg, s, PendingBatch(s, p), p.row);
      var batch := ActiveBatch(s1, p);
      var first, done := Ids(PendingBatch(s, p)), Ids(Prefix(batch, cut.done));
      var next := if cut.removed && cut.done < |batch| then {batch[cut.done].id} else {};
      p.(row := id => if id in first || id in done then p.row(id)
                      else if id in next then p.row(id).(write := false)
                      else DEAD)
  }

  lemma PrefixHeld(reqs: map<string, Request>, batch: seq<Request>, n: nat)
    requires Held(reqs, batch)
    ensures Held(reqs, Prefix(batch, n)) && Ids(Prefix(batch, n)) <= Ids(batch)
    ensures n < |batch| ==> batch[n].id in Ids(batch) && batch[n].id !in Ids(Prefix(batch, n)) && reqs[batch[n].id] == batch[n]
  {
    assert forall r :: r in Prefix(batch, n) ==> r in batch;
    assert n < |batch| ==> batch[n] in batch;
  }

  // Cuts one after another: the first leaves everything as it was, each next one adds one row's turn, a
  // cut between the two calls of a row its removal only, and the last is the whole pass.
  lemma CutsRowByRow(cfg: Config, s: State, p: Pass, n: nat)
    requires PlansFit(s, p) && p.query
    ensures CutReconcile(cfg, s, p, InExpire(0)) == s
    ensures var batch := PendingBatch(s, p);
            && (n < |batch| ==> CutReconcile(cfg, s, p, InExpire(n + 1)) ==
                                ExpireOverdue(cfg, CutReconcile(cfg, s, p, InExpire(n)), batch[n], p.row(batch[n].id)))
            && CutReconcile(cfg, s, p, InExpire(|batch|)) == CutReconcile(cfg, s, p, InRevoke(0, false))
    ensures var s1 := CutReconcile(cfg, s, p, InRevoke(0, false)); var batch := ActiveBatch(s1, p);
            && (p.query2 && n < |batch| ==>
                  var before, r := CutReconcile(cfg, s, p, InRevoke(n, false)), batch[n];
                  && CutReconcile(cfg, s, p, InRevoke(n, true)) == before.(active := AfterRemove(before.active, r.username, p.row(r.id).group))
                  && CutReconcile(cfg, s, p, InRevoke(n + 1, false)) ==
                     EndGrant(cfg, before, r, "system", GrantExpired, "active TTL elapsed; revoked", p.row(r.id)))
            && CutReconcile(cfg, s, p, InRevoke(|batch|, false)) == Reconcile(cfg, s, p)
  {
    hide Select, ExpireOverdue, EndGrant;
    var batch := PendingBatch(s, p);
    assert batch[..|batch|] == batch;
    var s1 := ExpireAll(cfg, s, batch, p.row);
    var batch2 := ActiveBatch(s1, p);
    assert Prefix(batch2, 0) == [] && Prefix(batch, 0) == [];
    if n < |batch| {
      assert Prefix(batch, n + 1) == batch[..n] + [batch[n]] && Prefix(batch, n + 1)[..n] == batch[..n];
    }
    if n < |batch2| {
      assert Prefix(batch2, n + 1) == batch2[..n] + [batch2[n]] && Prefix(batch2, n + 1)[..n] == batch2[..n];
    }
  }

  // A cut pass leaves the rows and the membership as a pass whose calls from the cut on all fail.
  lemma CutIsFailingPass(cfg: Config, s: State, p: Pass, cut: Cut)
    requires Keyed(s) && PassFits(s, p)
    ensures var q := FailingFrom(cfg, s, p, cut);
            && PassFits(s, q) && q.now == p.now
            && CutReconcile(cfg, s, p, cut).reqs == Reconcile(cfg, s, q).reqs
            && CutReconcile(cfg, s, p, cut).active == Reconcile(cfg, s, q).active
  {
    var q := FailingFrom(cfg, s, p, cut);
    if cut.BeforeQuery? || !p.query {
    } else if cut.InExpire? {
      CutInExpire(cfg, s, p, q, cut.done);
    } else {
      CutInRevoke(cfg, s, p, q, cut);
    }
  }

  lemma CutInExpire(cfg: Config, s: State, p: Pass, q: Pass, done: nat)
    requires Keyed(s) && PassFits(s, p) && p.query && q == FailingFrom(cfg, s, p, InExpire(done))
    ensures CutReconcile(cfg, s, p, InExpire(done)).reqs == Reconcile(cfg, s, q).reqs
    ensures CutReconcile(cfg, s, p, InExpire(done)).active == Reconcile(cfg, s, q).active
  {
    hide Select, Held, Ids, Prefix, ExpireAll, Matches;
    var batch := PendingBatch(s, p);
    BatchExact(s, p.plan, Pending, RequestExpiresAt, p.now);
    PrefixHeld(s.reqs, batch, done);
    ExpireAllExact(cfg, s, Prefix(batch, done), p.row);
    ExpireAllExact(cfg, s, batch, q.row);
  }

  lemma CutInRevoke(cfg: Config, s: State, p: Pass, q: Pass, cut: Cut)
    requires Keyed(s) && PassFits(s, p) && p.query && cut.InRevoke? && q == FailingFrom(cfg, s, p, cut)
    ensures CutReconcile(cfg, s, p, cut).reqs == Reconcile(cfg, s, q).reqs
    ensures CutReconcile(cfg, s, p, cut).active == Reconcile(cfg, s, q).active
  {
    hide Select, Held, Ids, Prefix, ExpireAll, RevokeAll, Matches, BatchUsers, AfterRemove;
    var s1 := ExpireAll(cfg, s, PendingBatch(s, p), p.row);
    var t1 := ExpireAll(cfg, s, PendingBatch(s, q), q.row);
    SameFirstLoop(cfg, s, p, q, s1, t1);
    if p.query2 {
      var batch := ActiveBatch(s1, p);
      assert ActiveBatch(t1, q) == batch;
      FirstBatchIsNotActive(cfg, s, p, s1);
      BatchExact(s1, p.plan2, Approved, ActiveExpiresAt, p.now);
      PrefixHeld(s1.reqs, batch, cut.done);
      RevokeUpTo(cfg, s1, t1, batch, cut, p.row, q.row);
    }
  }

  lemma SameFirstLoop(cfg: Config, s: State, p: Pass, q: Pass, s1: State, t1: State)
    requires Keyed(s) && PassFits(s, p) && p.query && q.plan == p.plan && q.now == p.now
    requires forall id :: id in Ids(PendingBatch(s, p)) ==> q.row(id) == p.row(id)
    requires s1 == ExpireAll(cfg, s, PendingBatch(s, p), p.row)
    requires t1 == ExpireAll(cfg, s, PendingBatch(s, p), q.row)
    ensures s1.reqs == t1.reqs && s1.active == t1.active
  {
    hide Select, Held, Ids, ExpireAll, Matches;
    BatchExact(s, p.plan, Pending, RequestExpiresAt, p.now);
    ExpireAllExact(cfg, s, PendingBatch(s, p), p.row);
    ExpireAllExact(cfg, s, PendingBatch(s, p), q.row);
  }

  // Stopping after the cut and failing from the cut on come to the same in the second loop.
  lemma RevokeUpTo(cfg: Config, s: State, t: State, batch: seq<Request>, cut: Cut, row: string -> Calls, row': string -> Calls)
    requires cut.InRevoke? && Held(s.reqs, batch) && s.reqs == t.reqs && s.active == t.active
    requires forall id :: id in Ids(batch) ==>
               row'(id) == if id in Ids(Prefix(batch, cut.done)) then row(id)
                           else if cut.removed && cut.done < |batch| && id == batch[cut.done].id then row(id).(write := false)
                           else DEAD
    ensures var s2 := RevokeAll(cfg, s, Prefix(batch, cut.done), row);
            var t2 := RevokeAll(cfg, t, batch, row');
            && s2.reqs == t2.reqs
            && t2.active == if cut.removed && cut.done < |batch|
                            then AfterRemove(s2.active, batch[cut.done].username, row(batch[cut.done].id).group) else s2.active
  {
    hide RevokeAll, BatchUsers, ReleasedRow, Held, Ids, Prefix;
    PrefixHeld(s.reqs, batch, cut.done);
    RevokeAllExact(cfg, s, Prefix(batch, cut.done), row);
    RevokeAllExact(cfg, t, batch, row');
    SameGroupsUpTo(s.reqs, batch, cut, row, row');
    UsersUpTo(batch, cut, row, row');
  }

  lemma SameGroupsUpTo(reqs: map<string, Request>, batch: seq<Request>, cut: Cut, row: string -> Calls, row': string -> Calls)
    requires cut.InRevoke? && Held(reqs, batch)
    requires forall id :: id in Ids(batch) ==>
               row'(id) == if id in Ids(Prefix(batch, cut.done)) then row(id)
                           else if cut.removed && cut.done < |batch| && id == batch[cut.done].id then row(id).(write := false)
                           else DEAD
    ensures forall i, j :: 0 <= i < j < |batch| ==> batch[i].id != batch[j].id
    ensures forall i :: 0 <= i < |batch| ==>
              row'(batch[i].id).group == if i < cut.done || (i == cut.done && cut.removed) then row(batch[i].id).group else Refused
  {
    hide Ids, Prefix;
    forall i | 0 <= i < |batch|
      ensures row'(batch[i].id).group == if i < cut.done || (i == cut.done && cut.removed) then row(batch[i].id).group else Refused
    {
      InPrefix(batch, cut.done, i);
    }
  }

  lemma InPrefix(batch: seq<Request>, n: nat, i: nat)
    requires i < |batch| && forall j, k :: 0 <= j < k < |batch| ==> batch[j].id != batch[k].id
    ensures batch[i].id in Ids(batch)
    ensures batch[i].id in Ids(Prefix(batch, n)) <==> i < n
  {
    assert batch[i] in batch;
    if i < n {
      assert Prefix(batch, n)[i] == batch[i];
    }
  }

  // No row is in both batches of one pass.
  lemma FirstBatchIsNotActive(cfg: Config, s: State, p: Pass, s1: State)
    requires Keyed(s) && PassFits(s, p) && p.query && s1 == ExpireAll(cfg, s, PendingBatch(s, p), p.row)
    ensures Keyed(s1) && PassFits(s1, p)
    ensures forall id :: id in Ids(PendingBatch(s, p)) ==> id !in Ids(ActiveBatch(s1, p))
  {
    hide Select, Held, Ids, ExpireAll, Due;
    ExpirePhase(cfg, s, p);
    BatchExact(s, p.plan, Pending, RequestExpiresAt, p.now);
    BatchExact(s1, p.plan2, Approved, ActiveExpiresAt, p.now);
  }

  lemma UsersUpTo(batch: seq<Request>, cut: Cut, row: string -> Calls, row': string -> Calls)
    requires cut.InRevoke?
    requires forall i, j :: 0 <= i < j < |batch| ==> batch[i].id != batch[j].id
    requires forall i :: 0 <= i < |batch| ==>
               row'(batch[i].id).group == if i < cut.done || (i == cut.done && cut.removed) then row(batch[i].id).group else Refused
    ensures BatchUsers(batch, row') == BatchUsers(Prefix(batch, cut.done), row)
              + (if cut.removed && cut.done < |batch| && row(batch[cut.done].id).group != Refused then {batch[cut.done].username} else {})
  {
    var done := Prefix(batch, cut.done);
    var all := BatchUsers(done, row) + (if cut.removed && cut.done < |batch| && row(batch[cut.done].id).group != Refused then {batch[cut.done].username} else {});
    forall u | u in BatchUsers(batch, row') ensures u in all {
      var r :| r in batch && row'(r.id).group != Refused && r.username == u;
      var i :| 0 <= i < |batch| && batch[i] == r;
      if i < cut.done {
        assert done[i] == r;
      }
    }
    forall u | u in all ensures u in BatchUsers(batch, row') {
      if u in BatchUsers(done, row) {
        var r :| r in done && row(r.id).group != Refused && r.username == u;
        var i :| 0 <= i < |done| && done[i] == r;
        assert batch[i] == r;
      } else {
        assert batch[cut.done] in batch;
      }
    }
  }

  // ----- what the next pass makes of it -----

  // The same rows with the same statuses, and the same membership.
  predicate SameOutcome(a: State, b: State) {
    && a.active == b.active && a.reqs.Keys == b.reqs.Keys
    && forall id :: id in a.reqs ==> a.reqs[id].status == b.reqs[id].status
  }

  lemma AbsorbRow(r: Request, p: Pass, c: Pass)
    requires forall d :: Due(d, p.now) ==> Due(d, c.now)
    requires c.query && c.query2 && Faultless(c.row(r.id))
    ensures RowAfter(RowAfter(r, p), c).status == RowAfter(r, c).status
    ensures ActiveOverdue(r, c.now) <==>
            ActiveOverdue(RowAfter(r, p), c.now) || (ActiveOverdue(r, p.now) && RowSucceeds(r, p))
    ensures ActiveOverdue(r, p.now) ==> ActiveOverdue(r, c.now)
  {
    hide Due;
  }

  lemma AbsorbUsers(reqs: map<string, Request>, reqs': map<string, Request>, p: Pass, c: Pass)
    requires reqs.Keys == reqs'.Keys && c.query && c.query2
    requires forall id :: id in reqs ==> reqs[id].id == id && Faultless(c.row(id)) && reqs'[id] == RowAfter(reqs[id], p)
    requires forall d :: Due(d, p.now) ==> Due(d, c.now)
    ensures RemovedUsers(reqs, p) + RemovedUsers(reqs', c) == RemovedUsers(reqs, c)
  {
    forall id | id in reqs
      ensures reqs'[id].id == id && reqs'[id].username == reqs[id].username
      ensures ActiveOverdue(reqs[id], c.now) <==>
              ActiveOverdue(reqs'[id], c.now) || (ActiveOverdue(reqs[id], p.now) && RowSucceeds(reqs[id], p))
      ensures ActiveOverdue(reqs[id], p.now) ==> ActiveOverdue(reqs[id], c.now)
      ensures ActiveOverdue(reqs[id], p.now) && RowSucceeds(reqs[id], p) ==> p.query && p.query2 && p.row(id).group != Refused
    {
      hide Due;
      AbsorbRow(reqs[id], p, c);
      RowAfterStatus(reqs[id], p);
    }
    hide ActiveOverdue, RowSucceeds, RowAfter, Due;
    forall u | u in RemovedUsers(reqs, c) ensures u in RemovedUsers(reqs, p) + RemovedUsers(reqs', c) {
      var id :| id in reqs && ActiveOverdue(reqs[id], c.now) && reqs[id].username == u;
      if ActiveOverdue(reqs'[id], c.now) {
        assert u in RemovedUsers(reqs', c);
      } else {
        assert u in RemovedUsers(reqs, p);
      }
    }
  }

  // A pass with any faults is absorbed by a later clean one: the clean pass ends as if the
  // earlier had never run, as long as no stored text of its time is after the clean pass's.
  lemma PassIsAbsorbed(cfg: Config, s: State, p: Pass, c: Pass)
    requires Keyed(s) && PassFits(s, p) && PassFits(s, c) && FaultlessPass(c, s.reqs)
    requires InRange(p.now) && InRange(c.now) && Leq(Format(p.now), Format(c.now))
    ensures Keyed(Reconcile(cfg, s, p))
    ensures SameOutcome(Reconcile(cfg, Reconcile(cfg, s, p), c), Reconcile(cfg, s, c))
  {
    hide Reconcile, Due, Format, RemovedUsers, RowAfter, Faultless;
    DueCarriesOver(p.now, c.now);
    var s' := Reconcile(cfg, s, p);
    ReconcileExact(cfg, s, p);
    forall id | id in s.reqs ensures s'.reqs[id].id == id {
      RowAfterStatus(s.reqs[id], p);
    }
    ReconcileExact(cfg, s, c);
    ReconcileExact(cfg, s', c);
    AbsorbUsers(s.reqs, s'.reqs, p, c);
    forall id | id in s.reqs ensures RowAfter(s'.reqs[id], c).status == RowAfter(s.reqs[id], c).status {
      AbsorbRow(s.reqs[id], p, c);
    }
  }

  // ----- any number of cuts -----

  datatype Interrupted = Interrupted(pass: Pass, cut: Cut)

  ghost predicate CutsFit(s: State, cuts: seq<Interrupted>) {
    forall i :: 0 <= i < |cuts| ==> PassFits(s, cuts[i].pass)
  }

  ghost function AfterCuts(cfg: Config, s: State, cuts: seq<Interrupted>): (s': State)
    requires CutsFit(s, cuts)
    ensures s'.reqs.Keys == s.reqs.Keys
    decreases |cuts|
  {
    if cuts == [] then s
    else AfterCuts(cfg, CutReconcile(cfg, s, cuts[0].pass, cuts[0].cut), cuts[1..])
  }

  lemma OutcomeOfReqsAndActive(cfg: Config, s: State, t: State, c: Pass)
    requires s.reqs == t.reqs && s.active == t.active && Keyed(s) && PassFits(s, c)
    ensures SameOutcome(Reconcile(cfg, s, c), Reconcile(cfg, t, c))
  {
    hide Reconcile, RowAfter, RemovedUsers;
    ReconcileExact(cfg, s, c);
    ReconcileExact(cfg, t, c);
  }

  // Crash recovery: cut Reconcile anywhere, any number of times, each with any faults before the
  // cut; the next clean pass ends in the statuses and the membership of one uninterrupted pass.
  lemma {:induction false} CrashRecovery(cfg: Config, s: State, cuts: seq<Interrupted>, c: Pass)
    requires Keyed(s) && PassFits(s, c) && FaultlessPass(c, s.reqs) && InRange(c.now)
    requires CutsFit(s, cuts)
    requires forall i :: 0 <= i < |cuts| ==> InRange(cuts[i].pass.now) && Leq(Format(cuts[i].pass.now), Format(c.now))
    ensures SameOutcome(Reconcile(cfg, AfterCuts(cfg, s, cuts), c), Reconcile(cfg, s, c))
    decreases |cuts|
  {
    hide Reconcile, CutReconcile, Format, Leq, FailingFrom;
    if cuts != [] {
      var p, cut := cuts[0].pass, cuts[0].cut;
      var s' := CutReconcile(cfg, s, p, cut);
      var q := FailingFrom(cfg, s, p, cut);
      CutIsFailingPass(cfg, s, p, cut);
      PassIsAbsorbed(cfg, s, q, c);
      OutcomeOfReqsAndActive(cfg, Reconcile(cfg, s, q), s', c);
      CrashRecovery(cfg, s', cuts[1..], c);
    }
  }

  // In particular when every cut pass ran in an earlier whole second.
  lemma CrashRecoveryInLaterSecond(cfg: Config, s: State, cuts: seq<Interrupted>, c: Pass)
    requires Keyed(s) && PassFits(s, c) && FaultlessPass(c, s.reqs) && InRange(c.now)
    requires CutsFit(s, cuts)
    requires forall i :: 0 <= i < |cuts| ==> InRange(cuts[i].pass.now) && cuts[i].pass.now / SECOND < c.now / SECOND
    ensures SameOutcome(Reconcile(cfg, AfterCuts(cfg, s, cuts), c), Reconcile(cfg, s, c))
  {
    hide *;
    forall i | 0 <= i < |cuts| ensures Leq(Format(cuts[i].pass.now), Format(c.now)) {
      LaterSecondComesAfter(cuts[i].pass.now, c.now);
    }
    CrashRecovery(cfg, s, cuts, c);
  }

  lemma DueThenOnly(n: Instant, m: Instant)
    requires InRange(n) && InRange(m) && !Leq(Format(n), Format(m))
    ensures Due(n, n) && !Due(n, m)
  {
    hide Format, Leq;
    TextOrderIsTimeOrder(n, n);
  }

  // The text condition is needed for every pair of times, in every state with a pending request whose
  // deadline is the earlier one: there, the earlier pass expires the request, and an uninterrupted
  // pass at the later time would have kept it.
  lemma RecoveryNeedsTextOrder(cfg: Config, s: State, id: string, n: Instant, m: Instant, p: Pass, c: Pass)
    requires InRange(n) && InRange(m) && !Leq(Format(n), Format(m))
    requires Keyed(s) && id in s.reqs && s.reqs[id].status == Pending && s.reqs[id].requestExpiresAt == n
    requires p.now == n && c.now == m && PassFits(s, p) && PassFits(s, c)
    requires FaultlessPass(p, s.reqs) && FaultlessPass(c, s.reqs)
    ensures Reconcile(cfg, Reconcile(cfg, s, p), c).reqs[id].status == Expired && Reconcile(cfg, s, c).reqs[id].status == Pending
    ensures !SameOutcome(Reconcile(cfg, Reconcile(cfg, s, p), c), Reconcile(cfg, s, c))
  {
    var s' := Reconcile(cfg, s, p);
    hide Reconcile, Format, Leq, Due, PassFits, FaultlessPass;
    DueThenOnly(n, m);
    OnePassOverIt(cfg, s, id, p);
    OnePassOverIt(cfg, s, id, c);
    PassFitsAfter(s, s', c);
    KeptAfterPass(cfg, s', id, c);
  }

  // A clean pass over a pending request, and whether it is due.
  lemma OnePassOverIt(cfg: Config, s: State, id: string, p: Pass)
    requires Keyed(s) && PassFits(s, p) && FaultlessPass(p, s.reqs) && id in s.reqs && s.reqs[id].status == Pending
    ensures var s' := Reconcile(cfg, s, p);
            Keyed(s') && s'.reqs[id].status == if Due(s.reqs[id].requestExpiresAt, p.now) then Expired else Pending
  {
    var s' := Reconcile(cfg, s, p);
    hide Reconcile, Due, RemovedUsers, PassFits;
    ReconcileExact(cfg, s, p);
    assert Faultless(p.row(id));
    forall j | j in s.reqs ensures s'.reqs[j].id == j {
      hide RowAfter;
      RowAfterStatus(s.reqs[j], p);
    }
  }

  lemma PassFitsAfter(s: State, s': State, p: Pass)
    requires PassFits(s, p) && s'.reqs.Keys == s.reqs.Keys
    ensures PassFits(s', p)
  {}

  lemma KeptAfterPass(cfg: Config, s: State, id: string, p: Pass)
    requires Keyed(s) && PassFits(s, p) && id in s.reqs && s.reqs[id].status == Expired
    ensures Reconcile(cfg, s, p).reqs[id].status == Expired
  {
    hide Reconcile, Due, RemovedUsers, PassFits;
    ReconcileExact(cfg, s, p);
  }
}
