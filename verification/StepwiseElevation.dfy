/** How long an elevation outlives its deadline when operations interleave and anything else may fail. */
module StepwiseElevation {
  import opened Wrappers
  import opened Timestamp
  import opened Deadlines
  import opened Requests
  import opened Storage
  import opened Protocol
  import opened Interleaving
  import opened StepwiseRows
  import opened Coverage

  // A move and the moment at which it is made.
  datatype Tick = Tick(t: Instant, m: Move)

  // The clock behind a move: a pass has read its time by then, and an approve writes its row before the
  // grant it is about to record would be over by a second.
  predicate Timely(cfg: Config, w: World, t: Instant, m: Move) {
    match m
    case BeginReconcile(_, now, _) => now <= t && InRange(now)
    case Call(p, outcome, _, _) =>
      p in w.procs && w.procs[p].Granting? && outcome == Done ==>
        InRange(w.procs[p].now + cfg.activeTTL) && t < w.procs[p].now + cfg.activeTTL + SECOND
    case _ => true
  }

  ghost predicate TimedRun(cfg: Config, w: World, clock: Instant, ticks: seq<Tick>)
    decreases |ticks|
  {
    ticks == [] ||
    (clock <= ticks[0].t && Timely(cfg, w, ticks[0].t, ticks[0].m) && Disjoint(w, ticks[0].m)
     && TimedRun(cfg, Next(cfg, w, ticks[0].m), ticks[0].t, ticks[1..]))
  }

  function After(cfg: Config, w: World, ticks: seq<Tick>): World
    decreases |ticks|
  {
    if ticks == [] then w else After(cfg, Next(cfg, w, ticks[0].m), ticks[1..])
  }

  function Clock(clock: Instant, ticks: seq<Tick>): Instant {
    if ticks == [] then clock else ticks[|ticks| - 1].t
  }

  // Every approved row has its deadline ActiveTTL after its approval.
  predicate Dated(cfg: Config, w: World) {
    forall id :: id in w.reqs && w.reqs[id].status == Approved ==>
      && w.reqs[id].approvedAt.Some?
      && w.reqs[id].activeExpiresAt == Some(w.reqs[id].approvedAt.value + cfg.activeTTL)
      && InRange(w.reqs[id].activeExpiresAt.value)
  }

  // Approved although its deadline is a second or more before `n`.
  predicate LongOver(r: Request, n: Instant) {
    r.status == Approved && r.activeExpiresAt.Some? && r.activeExpiresAt.value + SECOND <= n
  }

  predicate Cleared(w: World, n: Instant) {
    forall id :: id in w.reqs ==> !LongOver(w.reqs[id], n)
  }

  predicate Listed(rest: seq<Request>, id: string) {
    exists r :: r in rest && r.id == id
  }

  // Pass `p` of time `n` is under way, and what is long over is still ahead of it.
  predicate Working(w: World, p: nat, n: Instant) {
    p in w.procs &&
    match w.procs[p]
    case Sweeping(now, _) => now == n
    case Querying(now) => now == n
    case Revoking(now, rest) => now == n && forall id :: id in w.reqs && LongOver(w.reqs[id], n) ==> Listed(rest, id)
    case Revoked(now, rest) => now == n && forall id :: id in w.reqs && LongOver(w.reqs[id], n) ==> Listed(rest, id)
    case _ => false
  }

  // ----- rows -----

  // No move makes a row long over that was not.
  lemma NoneLongOver(cfg: Config, w: World, t: Instant, m: Move, n: Instant, id: string)
    requires Usable(w) && Disjoint(w, m) && Timely(cfg, w, t, m) && n <= t
    requires id in Next(cfg, w, m).reqs && LongOver(Next(cfg, w, m).reqs[id], n)
    ensures id in w.reqs && LongOver(w.reqs[id], n) && Next(cfg, w, m).reqs[id] == w.reqs[id]
  {
    hide Usable, Disjoint, Next;
    if m.Call? { CallIsKnown(w, m); }
    if id in w.reqs {
      RowChangesExactly(cfg, w, m, id);
    } else {
      NewRowIsPending(cfg, w, m, id);
    }
  }

  lemma CallIsKnown(w: World, m: Move)
    requires m.Call? && Disjoint(w, m)
    ensures m.p in w.procs
  {}

  lemma NewRowIsPending(cfg: Config, w: World, m: Move, id: string)
    requires Usable(w) && Disjoint(w, m) && id in Next(cfg, w, m).reqs && id !in w.reqs
    ensures Next(cfg, w, m).reqs[id].status == Pending
  {
    hide OverdueRows, Late, Usable, NoGrantOn, Free, Enumerates;
    if m.Call? && !Idle(w.procs[m.p]) {
      HeadInHand(w.procs[m.p]);
      hide Snapshot;
      InHand(w, m.p, Head(w.procs[m.p]));
    }
  }

  lemma NextIsDated(cfg: Config, w: World, t: Instant, m: Move)
    requires Usable(w) && Disjoint(w, m) && Timely(cfg, w, t, m) && Dated(cfg, w)
    ensures Dated(cfg, Next(cfg, w, m))
  {
    hide Usable, Disjoint, Next;
    var w' := Next(cfg, w, m);
    if m.Call? { CallIsKnown(w, m); }
    forall id | id in w'.reqs && w'.reqs[id].status == Approved
      ensures w'.reqs[id].approvedAt.Some? && w'.reqs[id].activeExpiresAt == Some(w'.reqs[id].approvedAt.value + cfg.activeTTL)
      ensures InRange(w'.reqs[id].activeExpiresAt.value)
    {
      if id in w.reqs {
        RowChangesExactly(cfg, w, m, id);
      } else {
        NewRowIsPending(cfg, w, m, id);
      }
    }
  }

  lemma NextIsCleared(cfg: Config, w: World, t: Instant, m: Move, n: Instant)
    requires Usable(w) && Disjoint(w, m) && Timely(cfg, w, t, m) && n <= t && Cleared(w, n)
    ensures Cleared(Next(cfg, w, m), n)
  {
    hide Usable, Disjoint, Next, LongOver, Timely;
    forall id | id in Next(cfg, w, m).reqs ensures !LongOver(Next(cfg, w, m).reqs[id], n) {
      if LongOver(Next(cfg, w, m).reqs[id], n) {
        NoneLongOver(cfg, w, t, m, n, id);
      }
    }
  }

  // ----- the pass -----

  // The second query finds all that is long over.
  lemma QueryLists(cfg: Config, w: World, n: Instant, plan: seq<string>)
    requires Usable(w) && Dated(cfg, w) && Enumerates(plan, w.reqs.Keys) && InRange(n)
    ensures forall id :: id in w.reqs && LongOver(w.reqs[id], n) ==> Listed(OverdueRows(w, plan, Approved, ActiveExpiresAt, n), id)
  {
    hide Due, Select;
    SelectExact(w.reqs, plan, Approved, ActiveExpiresAt, n);
    forall id | id in w.reqs && LongOver(w.reqs[id], n) ensures Listed(OverdueRows(w, plan, Approved, ActiveExpiresAt, n), id) {
      DueOutsideOneSecond(w.reqs[id].activeExpiresAt.value, n);
      assert w.reqs[id] in OverdueRows(w, plan, Approved, ActiveExpiresAt, n);
    }
  }

  // The pass's own next call, which succeeds.
  lemma OwnCall(cfg: Config, w: World, t: Instant, m: Move, p: nat, n: Instant)
    requires Usable(w) && Disjoint(w, m) && Timely(cfg, w, t, m) && Dated(cfg, w) && n <= t && InRange(n)
    requires Working(w, p, n) && m.Call? && m.p == p && m.outcome == Done
    ensures Working(Next(cfg, w, m), p, n) || Cleared(Next(cfg, w, m), n)
  {
    var proc, w' := w.procs[p], Next(cfg, w, m);
    forall id | id in w'.reqs && LongOver(w'.reqs[id], n) ensures id in w.reqs && LongOver(w.reqs[id], n) {
      hide Next, Usable, Disjoint, LongOver, Timely;
      NoneLongOver(cfg, w, t, m, n, id);
    }
    if proc.Querying? {
      QueryLists(cfg, w, n, m.plan);
      hide OverdueRows, LongOver, Usable, Enumerates;
      NothingListed();
    } else if proc.Revoked? {
      hide Usable, Disjoint, Timely;
      OwnWrite(cfg, w, m, p, n);
    } else {
      hide OverdueRows, LongOver, Usable, Disjoint, Timely;
      NothingListed();
    }
  }

  lemma NothingListed()
    ensures forall id :: !Listed([], id)
  {}

  lemma OwnWrite(cfg: Config, w: World, m: Move, p: nat, n: Instant)
    requires Working(w, p, n) && w.procs[p].Revoked? && m.Call? && m.p == p && m.outcome == Done
    requires var w' := Next(cfg, w, m); forall id :: id in w'.reqs && LongOver(w'.reqs[id], n) ==> id in w.reqs && LongOver(w.reqs[id], n)
    ensures Working(Next(cfg, w, m), p, n) || Cleared(Next(cfg, w, m), n)
  {
    var w', rest := Next(cfg, w, m), w.procs[p].rest;
    if rest == [] {
      NothingListed();
    } else {
      assert w'.reqs[rest[0].id].status == Released;
      forall id | id in w'.reqs && LongOver(w'.reqs[id], n) ensures Listed(rest[1..], id) {
        var r :| r in rest && r.id == id;
        assert r in rest[1..];
      }
      NothingListed();
    }
  }

  // Whatever else goes on, and fails, a pass whose own calls succeed clears what was long over when it
  // began, or still has it ahead.
  lemma PassGoesOnTo(cfg: Config, w: World, t: Instant, m: Move, p: nat, n: Instant)
    requires Usable(w) && Disjoint(w, m) && Timely(cfg, w, t, m) && Dated(cfg, w) && n <= t && InRange(n)
    requires Working(w, p, n) && !m.Restart? && (m.Call? && m.p == p ==> m.outcome == Done)
    ensures Working(Next(cfg, w, m), p, n) || Cleared(Next(cfg, w, m), n)
  {
    if m.Call? && m.p == p {
      hide Usable, Disjoint, Working, Cleared, Dated, Timely, Next;
      OwnCall(cfg, w, t, m, p, n);
    } else {
      var w' := Next(cfg, w, m);
      forall id | id in w'.reqs && LongOver(w'.reqs[id], n) ensures id in w.reqs && LongOver(w.reqs[id], n) {
        hide Next, Usable, Disjoint, LongOver, Timely;
        NoneLongOver(cfg, w, t, m, n, id);
      }
      OthersProceed(cfg, w, m, p);
      hide Next, Usable, Disjoint, LongOver, Timely;
    }
  }

  lemma OthersProceed(cfg: Config, w: World, m: Move, p: nat)
    requires p in w.procs && !m.Restart? && (m.Call? ==> m.p != p)
    ensures p in Next(cfg, w, m).procs && Next(cfg, w, m).procs[p] == w.procs[p]
  {
    hide OverdueRows, Late, Put, AfterAdd, AfterRemove;
  }

  // ----- runs -----

  lemma {:induction false} RunIsDated(cfg: Config, w: World, clock: Instant, ticks: seq<Tick>)
    requires Usable(w) && Dated(cfg, w) && TimedRun(cfg, w, clock, ticks)
    ensures Usable(After(cfg, w, ticks)) && Dated(cfg, After(cfg, w, ticks)) && clock <= Clock(clock, ticks)
    decreases |ticks|
  {
    hide Usable, Disjoint, Dated, Next, Timely;
    if ticks != [] {
      NextIsUsable(cfg, w, ticks[0].m);
      NextIsDated(cfg, w, ticks[0].t, ticks[0].m);
      RunIsDated(cfg, Next(cfg, w, ticks[0].m), ticks[0].t, ticks[1..]);
    }
  }

  lemma {:induction false} StaysCleared(cfg: Config, w: World, clock: Instant, ticks: seq<Tick>, n: Instant)
    requires Usable(w) && TimedRun(cfg, w, clock, ticks) && n <= clock && Cleared(w, n)
    ensures Cleared(After(cfg, w, ticks), n)
    decreases |ticks|
  {
    hide Usable, Disjoint, Cleared, Next, Timely;
    if ticks != [] {
      NextIsUsable(cfg, w, ticks[0].m);
      NextIsCleared(cfg, w, ticks[0].t, ticks[0].m, n);
      StaysCleared(cfg, Next(cfg, w, ticks[0].m), ticks[0].t, ticks[1..], n);
    }
  }

  // Nothing stops pass `p`: no restart, and none of its own calls fails.
  predicate Undisturbed(ticks: seq<Tick>, p: nat) {
    forall i :: 0 <= i < |ticks| ==> !ticks[i].m.Restart? && (ticks[i].m.Call? && ticks[i].m.p == p ==> ticks[i].m.outcome == Done)
  }

  lemma {:induction false} PassClears(cfg: Config, w: World, clock: Instant, ticks: seq<Tick>, p: nat, n: Instant)
    requires Usable(w) && Dated(cfg, w) && TimedRun(cfg, w, clock, ticks) && n <= clock && InRange(n)
    requires Working(w, p, n) && Undisturbed(ticks, p)
    ensures Working(After(cfg, w, ticks), p, n) || Cleared(After(cfg, w, ticks), n)
    decreases |ticks|
  {
    hide Usable, Disjoint, Dated, Cleared, Working, Next, Timely;
    if ticks != [] {
      var w', t, m := Next(cfg, w, ticks[0].m), ticks[0].t, ticks[0].m;
      NextIsUsable(cfg, w, m);
      NextIsDated(cfg, w, t, m);
      PassGoesOnTo(cfg, w, t, m, p, n);
      assert forall i :: 0 <= i < |ticks| - 1 ==> ticks[1..][i] == ticks[i + 1];
      if Working(w', p, n) {
        PassClears(cfg, w', t, ticks[1..], p, n);
      } else {
        StaysCleared(cfg, w', t, ticks[1..], n);
      }
    }
  }

  function Moves(ticks: seq<Tick>): seq<Move> {
    if ticks == [] then [] else [ticks[0].m] + Moves(ticks[1..])
  }

  lemma {:induction false} AfterIsRun(cfg: Config, w: World, ticks: seq<Tick>)
    ensures After(cfg, w, ticks) == RunMoves(cfg, w, Moves(ticks))
    decreases |ticks|
  {
    hide Next;
    if ticks != [] {
      AfterIsRun(cfg, Next(cfg, w, ticks[0].m), ticks[1..]);
      assert Moves(ticks)[1..] == Moves(ticks[1..]);
    }
  }

  lemma {:induction false} TimedRunSplits(cfg: Config, w: World, clock: Instant, ticks: seq<Tick>, k: nat)
    requires TimedRun(cfg, w, clock, ticks) && k <= |ticks|
    ensures TimedRun(cfg, w, clock, ticks[..k])
    ensures TimedRun(cfg, After(cfg, w, ticks[..k]), Clock(clock, ticks[..k]), ticks[k..])
    ensures After(cfg, w, ticks) == After(cfg, After(cfg, w, ticks[..k]), ticks[k..])
    decreases |ticks|
  {
    hide Next, Timely, Disjoint;
    if k == 0 {
      assert ticks[..0] == [] && ticks[0..] == ticks;
    } else {
      var w' := Next(cfg, w, ticks[0].m);
      TimedRunSplits(cfg, w', ticks[0].t, ticks[1..], k - 1);
      assert ticks[..k][1..] == ticks[1..][..k - 1] && ticks[1..][k - 1..] == ticks[k..];
      assert k > 1 ==> ticks[..k][k - 1] == ticks[1..][..k - 1][k - 2];
    }
  }

  const NOBODY: World := World(map[], {}, map[])

  // From its start on, whatever happens before, during and after it, and whatever fails elsewhere, a
  // pass that was not disturbed leaves no approved row whose deadline was a second or more past.
  lemma UndisturbedPassClears(cfg: Config, start: Instant, ticks: seq<Tick>, i: nat, k: nat)
    requires TimedRun(cfg, NOBODY, start, ticks) && i < k <= |ticks| && ticks[i].m.BeginReconcile?
    requires Undisturbed(ticks[i + 1..k], ticks[i].m.p) && ticks[i].m.p !in After(cfg, NOBODY, ticks[..k]).procs
    ensures Cleared(After(cfg, NOBODY, ticks), ticks[i].m.now)
  {
    hide Usable, Dated, Cleared, Next, Disjoint, TimedRun, Undisturbed;
    var p, n := ticks[i].m.p, ticks[i].m.now;
    TimedRunSplits(cfg, NOBODY, start, ticks, k);
    var first := ticks[..k];
    assert first[..i] == ticks[..i] && first[i..][1..] == ticks[i + 1..k] && first[i..][0] == ticks[i];
    TimedRunSplits(cfg, NOBODY, start, first, i);
    NobodyIsDated(cfg);
    RunIsDated(cfg, NOBODY, start, first[..i]);
    var w := After(cfg, NOBODY, first[..i]);
    var w' := Next(cfg, w, ticks[i].m);
    FirstTick(cfg, w, Clock(start, first[..i]), first[i..]);
    PassBegins(cfg, w, ticks[i].t, ticks[i].m);
    PassClears(cfg, w', ticks[i].t, first[i..][1..], p, n);
    var w2 := After(cfg, NOBODY, first);
    RunIsDated(cfg, NOBODY, start, first);
    RunIsDated(cfg, w', ticks[i].t, first[i..][1..]);
    assert Clock(ticks[i].t, first[i..][1..]) == Clock(start, first);
    assert Cleared(w2, n) by { NotWorking(w2, p, n); }
    StaysCleared(cfg, w2, Clock(start, first), ticks[k..], n);
  }

  lemma NobodyIsDated(cfg: Config)
    ensures Usable(NOBODY) && Dated(cfg, NOBODY) && Rooted(NOBODY) && AllCovered(NOBODY)
  {}

  lemma NotWorking(w: World, p: nat, n: Instant)
    requires p !in w.procs
    ensures !Working(w, p, n)
  {}

  lemma FirstTick(cfg: Config, w: World, clock: Instant, ticks: seq<Tick>)
    requires TimedRun(cfg, w, clock, ticks) && ticks != []
    ensures Timely(cfg, w, ticks[0].t, ticks[0].m) && Disjoint(w, ticks[0].m) && clock <= ticks[0].t
    ensures TimedRun(cfg, Next(cfg, w, ticks[0].m), ticks[0].t, ticks[1..])
    ensures After(cfg, w, ticks) == After(cfg, Next(cfg, w, ticks[0].m), ticks[1..])
  {}

  lemma PassBegins(cfg: Config, w: World, t: Instant, m: Move)
    requires Usable(w) && Dated(cfg, w) && m.BeginReconcile? && Disjoint(w, m) && Timely(cfg, w, t, m)
    ensures Usable(Next(cfg, w, m)) && Dated(cfg, Next(cfg, w, m))
    ensures Working(Next(cfg, w, m), m.p, m.now) && m.now <= t && InRange(m.now)
  {
    NextIsUsable(cfg, w, m);
    NextIsDated(cfg, w, t, m);
    hide OverdueRows, Usable, Dated;
  }

  // Bounded elevation under interleaving: take any interleaving from an empty table, with anything
  // failing that leaves every member accounted for, and in it a pass begun at `now` that was not
  // disturbed and is done. At any moment up to `gap` after that, a member has an approve under way,
  // or a row, no release of which is under way, approved less than ActiveTTL + gap + 1s before.
  lemma ElevationUnderInterleaving(cfg: Config, start: Instant, ticks: seq<Tick>, i: nat, k: nat, gap: nat, t: Instant, u: string)
    requires TimedRun(cfg, NOBODY, start, ticks) && NeverUncovers(cfg, NOBODY, Moves(ticks))
    requires i < k <= |ticks| && ticks[i].m.BeginReconcile?
    requires Undisturbed(ticks[i + 1..k], ticks[i].m.p) && ticks[i].m.p !in After(cfg, NOBODY, ticks[..k]).procs
    requires t <= ticks[i].m.now + gap && u in After(cfg, NOBODY, ticks).active
    ensures var w := After(cfg, NOBODY, ticks);
            || (exists p :: InGrant(w, p, u))
            || (exists id :: Vouches(w, id, u) && w.reqs[id].approvedAt.Some? && w.reqs[id].approvedAt.value + cfg.activeTTL + gap + SECOND > t)
  {
    hide Usable, TimedRun, Undisturbed, NeverUncovers, Rooted, Vouches, InGrant;
    var w := After(cfg, NOBODY, ticks);
    UndisturbedPassClears(cfg, start, ticks, i, k);
    NobodyIsDated(cfg);
    RunIsDated(cfg, NOBODY, start, ticks);
    CoveredAtTheEnd(cfg, ticks);
    if id :| Vouches(w, id, u) {
      VouchedRow(w, id, u);
    }
  }

  lemma VouchedRow(w: World, id: string, u: string)
    requires Vouches(w, id, u)
    ensures id in w.reqs && w.reqs[id].status == Approved
  {}

  lemma CoveredAtTheEnd(cfg: Config, ticks: seq<Tick>)
    requires NeverUncovers(cfg, NOBODY, Moves(ticks))
    ensures AllCovered(After(cfg, NOBODY, ticks))
  {
    hide Rooted, AllCovered, Uncovers, Next;
    NobodyIsDated(cfg);
    InterleavingCoversExactly(cfg, NOBODY, Moves(ticks));
    ThroughoutToTheEnd(cfg, NOBODY, Moves(ticks));
    AfterIsRun(cfg, NOBODY, ticks);
  }
}
