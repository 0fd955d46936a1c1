/** Membership of the active group against the approved rows, over atomic operations. */
module Membership {
  import opened Text
  import opened Timestamp
  import opened Deadlines
  import opened Requests
  import opened AuditView
  import opened Protocol
  import opened Sweep
  import opened Runs
  import opened Lifecycle

  predicate Holds(s: State, id: string, user: string) {
    id in s.reqs && s.reqs[id].status == Approved && s.reqs[id].username == user
  }

  ghost predicate HasGrant(s: State, user: string) {
    exists id :: Holds(s, id, user)
  }

  // Every member has an approved row.
  ghost predicate Covered(s: State) {
    forall u :: u in s.active ==> HasGrant(s, u)
  }

  // The members are exactly the users with an approved row.
  ghost predicate Mirrored(s: State) {
    forall u :: u in s.active <==> HasGrant(s, u)
  }

  predicate OneGrantEach(s: State) {
    forall i, j :: i in s.reqs && j in s.reqs && i != j && s.reqs[i].status == s.reqs[j].status == Approved
      ==> s.reqs[i].username != s.reqs[j].username
  }

  // ----- what a step does to membership -----

  function ActiveAfter(s: State, op: Op): set<string> {
    if ReachesGrant(s, op) then AfterAdd(s.active, s.reqs[op.id].username, op.c.group)
    else if ReachesRemoval(s, op) then AfterRemove(s.active, s.reqs[op.id].username, op.c.group)
    else if op.ReconcileOp? then s.active - RemovedUsers(s.reqs, op.pass)
    else s.active
  }

  lemma StepActive(cfg: Config, s: State, op: Op)
    requires Keyed(s) && (op.ReconcileOp? ==> PassFits(s, op.pass))
    ensures Step(cfg, s, op).active == ActiveAfter(s, op)
  {
    hide Reconcile, ReachesGrant, ReachesRemoval, RemovedUsers;
    if op.ReconcileOp? {
      PassActive(cfg, s, op.pass);
      assert !ReachesGrant(s, op) && !ReachesRemoval(s, op) by { OnlyTheirOwn(s, op); }
    } else if op.ApproveOp? {
      hide Step;
      ApproveActive(cfg, s, op);
    } else {
      hide Step;
      OtherActive(cfg, s, op);
    }
  }

  lemma OnlyTheirOwn(s: State, op: Op)
    ensures ReachesGrant(s, op) ==> op.ApproveOp? && op.id in s.reqs
    ensures ReachesRemoval(s, op) ==> op.ReleaseOp? && op.id in s.reqs
  {}

  lemma PassActive(cfg: Config, s: State, p: Pass)
    requires Keyed(s) && PassFits(s, p)
    ensures Reconcile(cfg, s, p).active == s.active - RemovedUsers(s.reqs, p)
  {
    hide Reconcile, RowAfter, RemovedUsers;
    ReconcileExact(cfg, s, p);
  }

  lemma ApproveActive(cfg: Config, s: State, op: Op)
    requires op.ApproveOp? && Keyed(s)
    ensures !ReachesRemoval(s, op)
    ensures ReachesGrant(s, op) ==> op.id in s.reqs
    ensures Step(cfg, s, op).active == if ReachesGrant(s, op) then AfterAdd(s.active, s.reqs[op.id].username, op.c.group) else s.active
  {
    hide Step, TrimSpace, Trimmed, Size, Late, Grant, ExpireLate, AfterAdd;
    ApproveCases(cfg, s, op);
    if Cleared(s, op) {
      GrantAdds(cfg, s, s.reqs[op.id], op.actor, TrimSpace(op.text), op.now, op.breakGlass, op.c);
      LateAddsNobody(cfg, s, s.reqs[op.id], op.c);
    }
  }

  lemma GrantAdds(cfg: Config, s: State, r: Request, actor: string, notes: string, now: Instant, breakGlass: bool, c: Calls)
    ensures Grant(cfg, s, r, actor, notes, now, breakGlass, c).state.active == AfterAdd(s.active, r.username, c.group)
  {
    hide Appended;
  }

  lemma LateAddsNobody(cfg: Config, s: State, r: Request, c: Calls)
    ensures ExpireLate(cfg, s, r, c).active == s.active
  {
    hide Appended;
  }

  lemma OtherActive(cfg: Config, s: State, op: Op)
    requires !op.ApproveOp? && !op.ReconcileOp?
    ensures !ReachesGrant(s, op)
    ensures ReachesRemoval(s, op) ==> op.ReleaseOp? && op.id in s.reqs
    ensures Step(cfg, s, op).active == if ReachesRemoval(s, op) then AfterRemove(s.active, s.reqs[op.id].username, op.c.group) else s.active
  {
    hide TrimSpace, Trimmed, Size, Appended;
  }

  // ----- coverage, and the one way to lose it -----

  // The user is added to the group, the row is not written, and no other row vouches for the user.
  ghost predicate Strands(s: State, op: Op) {
    && ReachesGrant(s, op) && op.c.group != Refused && !(op.c.group == Done && op.c.write)
    && !HasGrant(s, s.reqs[op.id].username)
  }

  lemma CoverageOfCreate(cfg: Config, s: State, op: Op)
    requires Keyed(s) && Covered(s) && op.CreateOp?
    ensures Covered(Step(cfg, s, op)) && !Strands(s, op)
  {
    hide Step, Asker, TrimSpace, Trimmed, Size, ReachesGrant, ReachesRemoval;
    var s' := Step(cfg, s, op);
    CreateRows(cfg, s, op);
    OtherActive(cfg, s, op);
    OnlyTheirOwn(s, op);
    forall u | u in s'.active ensures HasGrant(s', u) {
      var i :| Holds(s, i, u);
      assert Holds(s', i, u);
    }
  }

  lemma CoverageOfApprove(cfg: Config, s: State, op: Op)
    requires Keyed(s) && Covered(s) && op.ApproveOp?
    ensures Covered(Step(cfg, s, op)) <==> !Strands(s, op)
  {
    hide Step, TrimSpace, Trimmed, Size;
    var s' := Step(cfg, s, op);
    ApproveRows(cfg, s, op);
    StepActive(cfg, s, op);
    KeepsOtherGrants(s, s', op.id);
    if Approves(s, op) {
      assert Holds(s', op.id, s.reqs[op.id].username);
    } else if Strands(s, op) {
      var u := s.reqs[op.id].username;
      assert s'.reqs == s.reqs && u in s'.active;
      assert forall id :: Holds(s', id, u) ==> Holds(s, id, u);
    }
  }

  // A write on one row that is not approved leaves every grant in place.
  lemma KeepsOtherGrants(s: State, s': State, id: string)
    requires s'.reqs == s.reqs || (id in s.reqs && s.reqs[id].status != Approved && id in s'.reqs && s'.reqs == s.reqs[id := s'.reqs[id]])
    ensures forall i, u :: Holds(s, i, u) ==> Holds(s', i, u)
    ensures forall u :: HasGrant(s, u) ==> HasGrant(s', u)
  {
    forall u | HasGrant(s, u) ensures HasGrant(s', u) {
      var i :| Holds(s, i, u);
      assert Holds(s', i, u);
    }
  }

  lemma CoverageOfRelease(cfg: Config, s: State, op: Op)
    requires Keyed(s) && Covered(s) && op.ReleaseOp?
    ensures Covered(Step(cfg, s, op))
  {
    hide Step;
    var s' := Step(cfg, s, op);
    ReleaseRows(cfg, s, op);
    StepActive(cfg, s, op);
    forall u | u in s'.active ensures HasGrant(s', u) {
      var i :| Holds(s, i, u);
      assert Holds(s', i, u);
    }
  }

  lemma CoverageOfReconcile(cfg: Config, s: State, p: Pass)
    requires Keyed(s) && Covered(s) && PassFits(s, p)
    ensures Covered(Reconcile(cfg, s, p))
  {
    hide Reconcile, Due;
    var s' := Reconcile(cfg, s, p);
    ReconcileExact(cfg, s, p);
    forall u | u in s'.active ensures HasGrant(s', u) {
      var i :| Holds(s, i, u);
      assert u !in RemovedUsers(s.reqs, p);
      assert !RowSucceeds(s.reqs[i], p);
      assert Holds(s', i, u);
    }
  }

  // Coverage survives every operation, whatever fails, except exactly the stranding grant.
  lemma StepCoverage(cfg: Config, s: State, clock: Instant, op: Op)
    requires Keyed(s) && Covered(s) && Admissible(cfg, s, clock, op)
    ensures Covered(Step(cfg, s, op)) <==> !Strands(s, op)
  {
    match op
    case CreateOp(_, _, _, _, _, _, _, _) => CoverageOfCreate(cfg, s, op);
    case ApproveOp(_, _, _, _, _, _, _) => CoverageOfApprove(cfg, s, op);
    case ReleaseOp(_, _, _, _) => CoverageOfRelease(cfg, s, op);
    case ReconcileOp(pass) => CoverageOfReconcile(cfg, s, pass);
    case SessionOp(_, _, _) =>
      hide Step;
      SessionRows(cfg, s, op);
      KeepsOtherGrants(s, Step(cfg, s, op), "");
  }

  // The condition at every operation of a run, on the state it meets.
  ghost predicate NeverStrands(cfg: Config, s: State, ops: seq<Op>)
    decreases |ops|
  {
    ops == [] || (!Strands(s, ops[0]) && NeverStrands(cfg, Step(cfg, s, ops[0]), ops[1..]))
  }

  ghost predicate CoveredThroughout(cfg: Config, s: State, ops: seq<Op>)
    decreases |ops|
  {
    Covered(s) && (ops == [] || CoveredThroughout(cfg, Step(cfg, s, ops[0]), ops[1..]))
  }

  // A run, whatever fails in it, keeps every member covered at all times if and only if no approve
  // of it strands its user.
  lemma {:induction false} RunCoverageExactly(cfg: Config, s: State, clock: Instant, ops: seq<Op>)
    requires Shaped(cfg, clock, s) && Covered(s) && IsRun(cfg, s, clock, ops)
    ensures CoveredThroughout(cfg, s, ops) <==> NeverStrands(cfg, s, ops)
    decreases |ops|
  {
    hide Step, When, Covered, WellShaped, Strands;
    if ops != [] {
      assert Keyed(s) by { ShapedIsKeyed(cfg, clock, s); }
      StepCoverage(cfg, s, clock, ops[0]);
      StepAdvances(cfg, s, clock, ops[0]);
      if Covered(Step(cfg, s, ops[0])) {
        RunCoverageExactly(cfg, Step(cfg, s, ops[0]), When(ops[0], clock), ops[1..]);
      }
    }
  }

  // The group call of an approve is never lost, and once it is done its write succeeds.
  predicate WritesGrants(ops: seq<Op>) {
    forall i :: 0 <= i < |ops| && ops[i].ApproveOp? ==> ops[i].c.group == Refused || (ops[i].c.group == Done && ops[i].c.write)
  }

  lemma {:induction false} RunCoverage(cfg: Config, s: State, clock: Instant, ops: seq<Op>)
    requires Shaped(cfg, clock, s) && Covered(s) && IsRun(cfg, s, clock, ops) && WritesGrants(ops)
    ensures Covered(Run(cfg, s, clock, ops))
    decreases |ops|
  {
    hide Step, When, Covered, WellShaped;
    if ops != [] {
      assert Keyed(s) by { ShapedIsKeyed(cfg, clock, s); }
      StepCoverage(cfg, s, clock, ops[0]);
      StepAdvances(cfg, s, clock, ops[0]);
      assert forall i :: 0 <= i < |ops[1..]| ==> ops[1..][i] == ops[i + 1];
      RunCoverage(cfg, Step(cfg, s, ops[0]), When(ops[0], clock), ops[1..]);
    }
  }

  // ----- equivalence in fault-free runs -----

  ghost predicate FaultFree(op: Op) {
    match op
    case CreateOp(_, _, _, _, _, _, _, c) => Faultless(c)
    case ApproveOp(_, _, _, _, _, _, c) => Faultless(c)
    case ReleaseOp(_, _, _, c) => Faultless(c)
    case ReconcileOp(pass) => pass.query && pass.query2 && forall id :: Faultless(pass.row(id))
    case SessionOp(_, _, audit) => audit
  }

  predicate Ended(s: State, s': State, id: string) {
    id in s.reqs && id in s'.reqs && s.reqs[id].status == Approved && s'.reqs[id].status == Released
  }

  predicate EndedFor(s: State, s': State, id: string, user: string) {
    Ended(s, s', id) && s.reqs[id].username == user
  }

  // The operation will end a grant of someone who has another that it leaves alone.
  ghost predicate EndsOneOfTwo(s: State, op: Op) {
    match op
    case ReleaseOp(_, _, id, _) => Releases(s, op) && exists j :: j != id && Holds(s, j, s.reqs[id].username)
    case ReconcileOp(pass) =>
      exists i, j :: i in s.reqs && ActiveOverdue(s.reqs[i], pass.now)
        && Holds(s, j, s.reqs[i].username) && !ActiveOverdue(s.reqs[j], pass.now)
    case _ => false
  }

  // Between two states: someone whose grant ended has another one left.
  ghost predicate LeftWithOne(s: State, s': State) {
    exists id, u :: EndedFor(s, s', id, u) && HasGrant(s', u)
  }

  // In a fault-free step a user leaves the group exactly when a grant of theirs ends, and joins
  // exactly when one is approved.
  lemma FaultFreeStep(cfg: Config, s: State, clock: Instant, op: Op, u: string)
    requires Shaped(cfg, clock, s) && Admissible(cfg, s, clock, op) && FaultFree(op)
    ensures JoinsAndLeaves(s, Step(cfg, s, op), u)
  {
    hide JoinsAndLeaves, Step, Shaped, FaultFree, Admissible;
    assert Keyed(s) by { ShapedIsKeyed(cfg, clock, s); }
    match op
    case CreateOp(_, _, _, _, _, _, _, _) =>
      assert op.id !in s.reqs by { AdmissibleCreate(cfg, s, clock, op); }
      FaultFreeCreate(cfg, s, op, u);
    case ApproveOp(_, _, _, _, _, _, _) =>
      FaultFreeApprove(cfg, s, op, u);
    case ReleaseOp(_, _, _, _) =>
      FaultFreeRelease(cfg, s, op, u);
    case ReconcileOp(pass) =>
      assert PassFits(s, pass) by { AdmissiblePass(cfg, s, clock, op); }
      FaultFreePass(cfg, s, pass, u);
    case SessionOp(_, _, _) =>
      SessionRows(cfg, s, op);
      NothingJoins(s, Step(cfg, s, op), u);
  }

  ghost predicate JoinsAndLeaves(s: State, s': State, u: string) {
    u in s'.active <==>
      || (exists id :: Holds(s', id, u) && !Holds(s, id, u))
      || (u in s.active && !exists id :: EndedFor(s, s', id, u))
  }

  lemma NothingJoins(s: State, s': State, u: string)
    requires s'.active == s.active
    requires forall id :: Holds(s', id, u) ==> Holds(s, id, u)
    requires forall id :: !EndedFor(s, s', id, u)
    ensures JoinsAndLeaves(s, s', u)
  {}

  lemma FaultFreeCreate(cfg: Config, s: State, op: Op, u: string)
    requires op.CreateOp? && op.id !in s.reqs
    ensures JoinsAndLeaves(s, Step(cfg, s, op), u)
  {
    hide Step, Creates, Asker, ReachesGrant, ReachesRemoval, TrimSpace, Trimmed, JoinsAndLeaves;
    CreateRows(cfg, s, op);
    OtherActive(cfg, s, op);
    OnlyTheirOwn(s, op);
    NothingJoins(s, Step(cfg, s, op), u);
  }

  lemma FaultFreeApprove(cfg: Config, s: State, op: Op, u: string)
    requires Keyed(s) && op.ApproveOp? && FaultFree(op)
    ensures JoinsAndLeaves(s, Step(cfg, s, op), u)
  {
    hide Step, TrimSpace, Trimmed, Size;
    var s' := Step(cfg, s, op);
    ApproveRows(cfg, s, op);
    ApproveActive(cfg, s, op);
    if Approves(s, op) {
      assert Holds(s', op.id, s.reqs[op.id].username) && !Holds(s, op.id, s.reqs[op.id].username);
    } else {
      NothingJoins(s, s', u);
    }
  }

  lemma FaultFreeRelease(cfg: Config, s: State, op: Op, u: string)
    requires Keyed(s) && op.ReleaseOp? && FaultFree(op)
    ensures JoinsAndLeaves(s, Step(cfg, s, op), u)
  {
    hide Step, ReachesGrant;
    var s' := Step(cfg, s, op);
    ReleaseRows(cfg, s, op);
    OtherActive(cfg, s, op);
    if Releases(s, op) {
      assert EndedFor(s, s', op.id, s.reqs[op.id].username);
    } else {
      NothingJoins(s, s', u);
    }
  }

  lemma FaultFreePass(cfg: Config, s: State, p: Pass, u: string)
    requires Keyed(s) && PassFits(s, p) && FaultFree(ReconcileOp(p))
    ensures JoinsAndLeaves(s, Step(cfg, s, ReconcileOp(p)), u)
  {
    hide Reconcile, Due, RemovedUsers;
    var s' := Reconcile(cfg, s, p);
    ReconcileExact(cfg, s, p);
    forall id | id in s.reqs
      ensures Ended(s, s', id) <==> ActiveOverdue(s.reqs[id], p.now)
      ensures s'.reqs[id].status == Approved ==> s.reqs[id].status == Approved && s'.reqs[id] == s.reqs[id]
    {
      assert s'.reqs[id] == RowAfter(s.reqs[id], p);
    }
    hide ActiveOverdue, RowAfter;
    assert u in RemovedUsers(s.reqs, p) <==> exists id :: EndedFor(s, s', id, u) by {
      CleanPassRemoves(s, s', p, u);
    }
  }

  lemma CleanPassRemoves(s: State, s': State, p: Pass, u: string)
    requires Keyed(s) && FaultFree(ReconcileOp(p)) && s'.reqs.Keys == s.reqs.Keys
    requires forall id :: id in s.reqs ==> (Ended(s, s', id) <==> ActiveOverdue(s.reqs[id], p.now))
    ensures u in RemovedUsers(s.reqs, p) <==> exists id :: EndedFor(s, s', id, u)
  {
    hide ActiveOverdue, Ended;
    if u in RemovedUsers(s.reqs, p) {
      var id :| id in s.reqs && ActiveOverdue(s.reqs[id], p.now) && s.reqs[id].username == u;
      assert EndedFor(s, s', id, u);
    }
    forall id | EndedFor(s, s', id, u) ensures u in RemovedUsers(s.reqs, p) {
      assert id in s.reqs by { EndedIsThere(s, s', id); }
      assert Faultless(p.row(s.reqs[id].id));
    }
  }

  lemma EndedIsThere(s: State, s': State, id: string)
    requires Ended(s, s', id)
    ensures id in s.reqs
  {}

  lemma GrantKeptOrEnded(cfg: Config, s: State, clock: Instant, op: Op, id: string, u: string)
    requires Shaped(cfg, clock, s) && Admissible(cfg, s, clock, op) && Holds(s, id, u)
    ensures Holds(Step(cfg, s, op), id, u) || EndedFor(s, Step(cfg, s, op), id, u)
  {
    hide Step;
    StepAdvances(cfg, s, clock, op);
    assert Moves(s.reqs[id], Step(cfg, s, op).reqs[id]);
  }

  // From matching membership, a fault-free operation keeps it matching unless it ends one of
  // several grants of one user, and then it does not.
  lemma MirrorStep(cfg: Config, s: State, clock: Instant, op: Op)
    requires Shaped(cfg, clock, s) && Mirrored(s) && Admissible(cfg, s, clock, op) && FaultFree(op)
    ensures Mirrored(Step(cfg, s, op)) <==> !EndsOneOfTwo(s, op)
  {
    hide Step, Shaped, Admissible, FaultFree, Holds, EndedFor, EndsOneOfTwo, JoinsAndLeaves, LeftWithOne;
    var s' := Step(cfg, s, op);
    forall u ensures JoinsAndLeaves(s, s', u) {
      FaultFreeStep(cfg, s, clock, op, u);
    }
    forall id, u | Holds(s, id, u)
      ensures Holds(s', id, u) || EndedFor(s, s', id, u)
    {
      GrantKeptOrEnded(cfg, s, clock, op, id, u);
    }
    NoStepEndsAndGrants(cfg, s, clock, op);
    MirrorLogic(s, s');
    LeftWithOneExactly(cfg, s, clock, op);
  }

  lemma LeftWithOneExactly(cfg: Config, s: State, clock: Instant, op: Op)
    requires Shaped(cfg, clock, s) && Admissible(cfg, s, clock, op) && FaultFree(op)
    ensures LeftWithOne(s, Step(cfg, s, op)) <==> EndsOneOfTwo(s, op)
  {
    hide Step, Shaped, FaultFree, LeftWithOne, EndsOneOfTwo, Admissible;
    assert Keyed(s) by { ShapedIsKeyed(cfg, clock, s); }
    match op
    case CreateOp(_, _, _, _, _, _, _, _) =>
      assert op.id !in s.reqs by { AdmissibleCreate(cfg, s, clock, op); }
      NobodyLeft(cfg, s, op);
    case ReleaseOp(_, _, _, _) =>
      LeftByRelease(cfg, s, op);
    case ReconcileOp(pass) =>
      assert PassFits(s, pass) by { AdmissiblePass(cfg, s, clock, op); }
      LeftByPass(cfg, s, pass);
    case ApproveOp(_, _, _, _, _, _, _) =>
      NobodyLeft(cfg, s, op);
    case SessionOp(_, _, _) =>
      NobodyLeft(cfg, s, op);
  }

  lemma NobodyLeft(cfg: Config, s: State, op: Op)
    requires Keyed(s) && !op.ReleaseOp? && !op.ReconcileOp? && (op.CreateOp? ==> op.id !in s.reqs)
    ensures !LeftWithOne(s, Step(cfg, s, op)) && !EndsOneOfTwo(s, op)
  {
    hide Step, TrimSpace, Trimmed, Size, Creates, Asker;
    if op.CreateOp? {
      CreateRows(cfg, s, op);
    } else if op.ApproveOp? {
      ApproveRows(cfg, s, op);
    } else {
      SessionRows(cfg, s, op);
    }
  }

  lemma LeftByRelease(cfg: Config, s: State, op: Op)
    requires Keyed(s) && op.ReleaseOp?
    ensures LeftWithOne(s, Step(cfg, s, op)) <==> EndsOneOfTwo(s, op)
  {
    hide Step;
    ReleaseRows(cfg, s, op);
    var s' := Step(cfg, s, op);
    if Releases(s, op) {
      var u := s.reqs[op.id].username;
      assert EndedFor(s, s', op.id, u);
      assert forall j :: Holds(s', j, u) <==> j != op.id && Holds(s, j, u);
    }
  }

  lemma LeftByPass(cfg: Config, s: State, p: Pass)
    requires Keyed(s) && PassFits(s, p) && FaultFree(ReconcileOp(p))
    ensures LeftWithOne(s, Step(cfg, s, ReconcileOp(p))) <==> EndsOneOfTwo(s, ReconcileOp(p))
  {
    hide Reconcile, Due, RemovedUsers;
    var s' := Reconcile(cfg, s, p);
    ReconcileExact(cfg, s, p);
    forall id | id in s.reqs
      ensures Ended(s, s', id) <==> ActiveOverdue(s.reqs[id], p.now)
      ensures s'.reqs[id].status == Approved <==> s.reqs[id].status == Approved && !ActiveOverdue(s.reqs[id], p.now)
      ensures s'.reqs[id].username == s.reqs[id].username
    {
      assert Faultless(p.row(s.reqs[id].id));
      assert s'.reqs[id] == RowAfter(s.reqs[id], p);
    }
    hide ActiveOverdue, RowAfter, FaultFree, Ended;
    forall i, u | EndedFor(s, s', i, u) ensures i in s.reqs {
      EndedIsThere(s, s', i);
    }
    if i, j :| i in s.reqs && ActiveOverdue(s.reqs[i], p.now) && Holds(s, j, s.reqs[i].username) && !ActiveOverdue(s.reqs[j], p.now) {
      assert EndedFor(s, s', i, s.reqs[i].username);
      assert Holds(s', j, s.reqs[i].username);
    }
  }

  // No single operation both approves a row and ends one.
  lemma NoStepEndsAndGrants(cfg: Config, s: State, clock: Instant, op: Op)
    requires Shaped(cfg, clock, s) && Admissible(cfg, s, clock, op)
    ensures var s' := Step(cfg, s, op);
            (forall id, u :: Holds(s', id, u) ==> Holds(s, id, u)) || (forall id, u :: !EndedFor(s, s', id, u))
  {
    hide Step, Admissible, WellShaped, TrimSpace, Trimmed, Size;
    ShapedIsKeyed(cfg, clock, s);
    if op.ApproveOp? {
      hide Shaped;
      ApproveRows(cfg, s, op);
    } else if op.CreateOp? {
      hide Shaped, Creates, Asker;
      CreateRows(cfg, s, op);
    } else {
      OthersGrantNothing(cfg, s, clock, op);
    }
  }

  lemma OthersGrantNothing(cfg: Config, s: State, clock: Instant, op: Op)
    requires Shaped(cfg, clock, s) && Admissible(cfg, s, clock, op) && !op.CreateOp? && !op.ApproveOp?
    ensures forall id, u :: Holds(Step(cfg, s, op), id, u) ==> Holds(s, id, u)
  {
    hide Step, WellShaped;
    var s' := Step(cfg, s, op);
    ShapedIsKeyed(cfg, clock, s);
    StepAdvances(cfg, s, clock, op);
    SameKeys(cfg, s, op);
    hide Shaped;
    forall id, u | Holds(s', id, u) ensures Holds(s, id, u) {
      NoApproval(cfg, s, op, id);
      assert Moves(s.reqs[id], s'.reqs[id]);
    }
  }

  lemma MirrorLogic(s: State, s': State)
    requires Mirrored(s)
    requires forall u :: JoinsAndLeaves(s, s', u)
    requires forall id, u :: Holds(s, id, u) ==> Holds(s', id, u) || EndedFor(s, s', id, u)
    requires (forall id, u :: Holds(s', id, u) ==> Holds(s, id, u)) || (forall id, u :: !EndedFor(s, s', id, u))
    ensures Mirrored(s') <==> !LeftWithOne(s, s')
  {
    hide Holds, EndedFor;
    forall u
      ensures u in s'.active <==>
              || (exists id :: Holds(s', id, u) && !Holds(s, id, u))
              || (u in s.active && !exists id :: EndedFor(s, s', id, u))
    {
      assert JoinsAndLeaves(s, s', u);
    }
    if !LeftWithOne(s, s') {
      forall u | u in s'.active && u in s.active ensures HasGrant(s', u) {
        if !exists id :: Holds(s', id, u) && !Holds(s, id, u) {
          var id :| Holds(s, id, u);
          assert Holds(s', id, u);
        }
      }
    }
  }

  // That takes a user with two approved rows.
  lemma OneGrantIsEnough(s: State, op: Op)
    requires OneGrantEach(s)
    ensures !EndsOneOfTwo(s, op)
  {
    hide Due;
  }

  // The condition at every operation of a run, on the state it meets.
  ghost predicate NeverEndsOneOfTwo(cfg: Config, s: State, ops: seq<Op>)
    decreases |ops|
  {
    ops == [] || (!EndsOneOfTwo(s, ops[0]) && NeverEndsOneOfTwo(cfg, Step(cfg, s, ops[0]), ops[1..]))
  }

  ghost predicate MirroredThroughout(cfg: Config, s: State, ops: seq<Op>)
    decreases |ops|
  {
    Mirrored(s) && (ops == [] || MirroredThroughout(cfg, Step(cfg, s, ops[0]), ops[1..]))
  }

  // A fault-free run keeps the group exactly the users with an approved row, at all times, if and
  // only if no operation of it ends one of several grants of one user.
  lemma {:induction false} RunMirrorsExactly(cfg: Config, s: State, clock: Instant, ops: seq<Op>)
    requires Shaped(cfg, clock, s) && Mirrored(s) && IsRun(cfg, s, clock, ops)
    requires forall i :: 0 <= i < |ops| ==> FaultFree(ops[i])
    ensures MirroredThroughout(cfg, s, ops) <==> NeverEndsOneOfTwo(cfg, s, ops)
    decreases |ops|
  {
    hide Step, When, Mirrored, Shaped, EndsOneOfTwo, FaultFree;
    if ops != [] {
      var s1 := Step(cfg, s, ops[0]);
      MirrorStep(cfg, s, clock, ops[0]);
      StepAdvances(cfg, s, clock, ops[0]);
      if Mirrored(s1) {
        RunMirrorsExactly(cfg, s1, When(ops[0], clock), ops[1..]);
      }
    }
  }

  ghost predicate OneGrantThroughout(cfg: Config, s: State, ops: seq<Op>)
    decreases |ops|
  {
    OneGrantEach(s) && (ops == [] || OneGrantThroughout(cfg, Step(cfg, s, ops[0]), ops[1..]))
  }

  // In particular when no user ever has two approved rows.
  lemma {:induction false} RunMirrors(cfg: Config, s: State, clock: Instant, ops: seq<Op>)
    requires Shaped(cfg, clock, s) && Mirrored(s) && IsRun(cfg, s, clock, ops)
    requires OneGrantThroughout(cfg, s, ops) && forall i :: 0 <= i < |ops| ==> FaultFree(ops[i])
    ensures Mirrored(Run(cfg, s, clock, ops))
    decreases |ops|
  {
    hide Step, When, Mirrored, Shaped, OneGrantEach, EndsOneOfTwo, FaultFree;
    if ops != [] {
      OneGrantIsEnough(s, ops[0]);
      MirrorStep(cfg, s, clock, ops[0]);
      StepAdvances(cfg, s, clock, ops[0]);
      RunMirrors(cfg, Step(cfg, s, ops[0]), When(ops[0], clock), ops[1..]);
    }
  }
}
