/** The audit log and the notifications one call at a time: what they still say when operations interleave. */
module Chronicle {
  import opened Wrappers
  import opened Timestamp
  import opened Deadlines
  import opened Requests
  import opened AuditView
  import opened Storage
  import opened Protocol
  import opened Interleaving
  import opened StepwiseRows
  import opened Notifications
  import opened Atomicity
  import opened AuditReplay

  // What an operation still has to do about a call it has made: log its events, then try the mark, and
  // post if the mark was new.
  datatype Duty = Record(e: AuditEvent) | Tell(mark: Mark) | Send(mark: Mark)

  datatype Journal = Journal(w: World, log: seq<AuditEvent>, marks: set<Mark>, posts: seq<Mark>, owed: map<nat, seq<Duty>>)

  // A call on the table or the group, by whom; or the next duty of an operation, whose store call
  // succeeds or fails.
  datatype Turn =
    | Act(m: Move, actor: string, breakGlass: bool)
    | Discharge(p: nat, up: bool)

  function ExpiryDuties(r: Request, detail: string): seq<Duty> {
    [Record(Event(RequestExpired, "system", r, detail, false)), Tell(Mark(r.id, ExpiredRequester))]
  }

  function EndDuties(r: Request, actor: string, action: Action, detail: string): seq<Duty> {
    [Record(Event(action, actor, r, detail, false)), Tell(Mark(r.id, ReleasedRequester(ReasonOf(action))))]
  }

  // The duties a call brings with it. The late branch takes them on whether or not its write succeeded.
  function Duties(cfg: Config, w: World, m: Move, actor: string, breakGlass: bool): seq<Duty> {
    match m
    case Insert(_, req) =>
      if req.id in w.reqs then []
      else [Record(Event(RequestCreated, actor, req, "pending elevation request", breakGlass)), Tell(Mark(req.id, PendingApprovers))]
    case Call(p, outcome, _, _) =>
      if p !in w.procs then []
      else
        (match w.procs[p]
         case Granting(req, _, approver, notes) =>
           if outcome == Done
           then [Record(Event(RequestApproved, approver, req, "notes: " + notes, breakGlass)), Record(Event(GrantActive, approver, req, "user added to " + cfg.activeGroup, breakGlass)),
                 Tell(Mark(req.id, ApprovedRequester))]
           else []
         case Expiring(req) => ExpiryDuties(req, "expired before approve")
         case Removed(req) => if outcome == Done then EndDuties(req, if actor == "" then "system" else actor, EarlyRelease, "removed from " + cfg.activeGroup) else []
         case Sweeping(_, rest) => if rest != [] && outcome == Done then ExpiryDuties(rest[0], "request TTL elapsed") else []
         case Revoked(_, rest) => if rest != [] && outcome == Done then EndDuties(rest[0], "system", GrantExpired, "active TTL elapsed; revoked") else []
         case _ => [])
    case _ => []
  }

  predicate Busy(j: Journal, p: nat) {
    p in j.owed && j.owed[p] != []
  }

  // An operation makes no other call before it is done with its duties; a restart forgets them.
  function Turned(cfg: Config, j: Journal, t: Turn): Journal {
    match t
    case Act(m, actor, breakGlass) =>
      if m.Restart? then j.(w := Next(cfg, j.w, m), owed := map[])
      else if Busy(j, m.p) then j
      else j.(w := Next(cfg, j.w, m), owed := j.owed[m.p := Duties(cfg, j.w, m, actor, breakGlass)])
    case Discharge(p, up) => if Busy(j, p) then Discharged(cfg, j, p, up) else j
  }

  function Discharged(cfg: Config, j: Journal, p: nat, up: bool): Journal
    requires Busy(j, p)
  {
    var rest := j.owed[p][1..];
    match j.owed[p][0]
    case Record(e) => j.(log := if up then Appended(j.log, e) else j.log, owed := j.owed[p := rest])
    case Tell(mark) =>
      if cfg.notifications && up && mark !in j.marks
      then j.(marks := j.marks + {mark}, owed := j.owed[p := [Send(mark)] + rest])
      else j.(owed := j.owed[p := rest])
    case Send(mark) => j.(posts := j.posts + [mark], owed := j.owed[p := rest])
  }

  function TurnAll(cfg: Config, j: Journal, turns: seq<Turn>): Journal
    decreases |turns|
  {
    if turns == [] then j else TurnAll(cfg, Turned(cfg, j, turns[0]), turns[1..])
  }

  // Any call may fail and any restart come; only approves keep their rows to themselves.
  ghost predicate FreeTurn(j: Journal, t: Turn) {
    t.Act? && (t.m.Restart? || !Busy(j, t.m.p)) ==> Disjoint(j.w, t.m)
  }

  ghost predicate FreeTurns(cfg: Config, j: Journal, turns: seq<Turn>)
    decreases |turns|
  {
    turns == [] || (FreeTurn(j, turns[0]) && FreeTurns(cfg, Turned(cfg, j, turns[0]), turns[1..]))
  }

  // ----- facts -----

  // What can be said about a request once and for all.
  datatype Fact = Asked | Agreed | Lapsed | Over

  predicate Holds(reqs: map<string, Request>, id: string, f: Fact) {
    id in reqs &&
    match f
    case Asked => true
    case Agreed => reqs[id].status in {Approved, Released}
    case Lapsed => reqs[id].status == Expired
    case Over => reqs[id].status == Released
  }

  predicate Says(e: AuditEvent, id: string, f: Fact) {
    e.requestId == id &&
    match e.action
    case RequestCreated => f == Asked
    case RequestApproved => f == Agreed
    case RequestExpired => f == Lapsed
    case EarlyRelease => f == Over
    case GrantExpired => f == Over
    case GrantActive => false
    case BreakGlassSession => false
  }

  predicate Told(log: seq<AuditEvent>, id: string, f: Fact) {
    exists i :: 0 <= i < |log| && Says(log[i], id, f)
  }

  predicate ToTell(duties: seq<Duty>, id: string, f: Fact) {
    exists i :: 0 <= i < |duties| && duties[i].Record? && Says(duties[i].e, id, f)
  }

  predicate Untold(owed: map<nat, seq<Duty>>, id: string, f: Fact) {
    exists p :: p in owed && ToTell(owed[p], id, f)
  }

  // The log, with what operations are about to add to it, says of every request exactly what is so.
  ghost predicate Accounted(j: Journal) {
    forall id, f :: Holds(j.w.reqs, id, f) <==> Told(j.log, id, f) || Untold(j.owed, id, f)
  }

  // The late branch's write fails.
  predicate FailsLate(w: World, m: Move) {
    m.Call? && m.p in w.procs && w.procs[m.p].Expiring? && m.outcome != Done
  }

  // ----- what a call makes so, and what it will say -----

  lemma SaidByTwo(a: Duty, b: Duty, id: string, f: Fact)
    ensures ToTell([a, b], id, f) <==> (a.Record? && Says(a.e, id, f)) || (b.Record? && Says(b.e, id, f))
  {
    hide Says;
    assert [a, b][0] == a && [a, b][1] == b;
  }

  lemma SaidByThree(a: Duty, b: Duty, c: Duty, id: string, f: Fact)
    ensures ToTell([a, b, c], id, f) <==>
            (a.Record? && Says(a.e, id, f)) || (b.Record? && Says(b.e, id, f)) || (c.Record? && Says(c.e, id, f))
  {
    hide Says;
    assert [a, b, c][0] == a && [a, b, c][1] == b && [a, b, c][2] == c;
  }

  // What the duties of a call will say.
  lemma DutiesSay(cfg: Config, w: World, m: Move, actor: string, breakGlass: bool, id: string, f: Fact)
    ensures ToTell(Duties(cfg, w, m, actor, breakGlass), id, f) <==>
            match m
            case Insert(_, req) => req.id !in w.reqs && id == req.id && f == Asked
            case Call(p, outcome, _, _) =>
              p in w.procs && !Idle(w.procs[p]) && id == Head(w.procs[p]).id &&
              (match w.procs[p]
               case Granting(_, _, _, _) => outcome == Done && f == Agreed
               case Expiring(_) => f == Lapsed
               case Sweeping(_, _) => outcome == Done && f == Lapsed
               case Removed(_) => outcome == Done && f == Over
               case Revoked(_, _) => outcome == Done && f == Over
               case _ => false)
            case _ => false
  {
    var duties := Duties(cfg, w, m, actor, breakGlass);
    hide ToTell;
    if |duties| == 2 {
      assert duties == [duties[0], duties[1]];
      SaidByTwo(duties[0], duties[1], id, f);
    } else if |duties| == 3 {
      assert duties == [duties[0], duties[1], duties[2]];
      SaidByThree(duties[0], duties[1], duties[2], id, f);
    } else {
      assert duties == [] && !ToTell([], id, f) by { NothingSaid(id, f); }
    }
  }

  lemma NothingSaid(id: string, f: Fact)
    ensures !ToTell([], id, f)
  {}

  // No row appears or disappears but by a request being made.
  lemma NextKeys(cfg: Config, w: World, m: Move)
    requires Usable(w) && Disjoint(w, m)
    ensures Next(cfg, w, m).reqs.Keys == w.reqs.Keys + (if m.Insert? then {m.req.id} else {})
  {
    hide OverdueRows, Late, Usable, NoGrantOn, Free, Enumerates;
    if m.Call? && !Idle(w.procs[m.p]) {
      HeadInHand(w.procs[m.p]);
      hide Snapshot;
      InHand(w, m.p, Head(w.procs[m.p]));
    }
  }

  // A call makes so exactly what its duties will say, except a late branch whose write fails: that
  // changes nothing.
  lemma CallMakesSo(cfg: Config, w: World, m: Move, actor: string, breakGlass: bool, id: string, f: Fact)
    requires Usable(w) && Disjoint(w, m)
    ensures Holds(Next(cfg, w, m).reqs, id, f) <==>
            Holds(w.reqs, id, f) || (!FailsLate(w, m) && ToTell(Duties(cfg, w, m, actor, breakGlass), id, f))
  {
    hide Next, Usable, Disjoint, ToTell, Duties;
    NextKeys(cfg, w, m);
    DutiesSay(cfg, w, m, actor, breakGlass, id, f);
    if id in w.reqs {
      RowChangesExactly(cfg, w, m, id);
      RowHeld(w, m, id);
    } else if m.Insert? && id == m.req.id {
      Inserted(cfg, w, m);
    } else {
      NotHeld(w, m, id);
    }
  }

  lemma Inserted(cfg: Config, w: World, m: Move)
    requires m.Insert? && Disjoint(w, m)
    ensures m.req.id !in w.reqs && Next(cfg, w, m).reqs == w.reqs[m.req.id := m.req] && m.req.status == Pending
  {}

  // An operation's copies are of stored rows, whose status goes with what it is about to do.
  lemma RowHeld(w: World, m: Move, id: string)
    requires Usable(w) && Disjoint(w, m) && id in w.reqs
    ensures m.Insert? ==> m.req.id != id
    ensures m.Call? ==> m.p in w.procs
    ensures m.Call? && !Idle(w.procs[m.p]) && Head(w.procs[m.p]).id == id ==>
              match w.procs[m.p]
              case Granting(_, _, _, _) => w.reqs[id].status == Pending
              case Expiring(_) => w.reqs[id].status in {Pending, Expired}
              case Sweeping(_, _) => w.reqs[id].status in {Pending, Expired}
              case Removed(_) => w.reqs[id].status in {Approved, Released}
              case Revoked(_, _) => w.reqs[id].status in {Approved, Released}
              case _ => true
  {
    hide OverdueRows, Late, Usable, NoGrantOn, Free, Enumerates;
    if m.Call? && !Idle(w.procs[m.p]) {
      HeadInHand(w.procs[m.p]);
      hide Snapshot;
      InHand(w, m.p, Head(w.procs[m.p]));
    }
  }

  lemma NotHeld(w: World, m: Move, id: string)
    requires Usable(w) && Disjoint(w, m) && id !in w.reqs
    ensures m.Call? ==> m.p in w.procs && (!Idle(w.procs[m.p]) ==> Head(w.procs[m.p]).id != id)
  {
    hide OverdueRows, Late, Usable, NoGrantOn, Free, Enumerates;
    if m.Call? && !Idle(w.procs[m.p]) {
      HeadInHand(w.procs[m.p]);
      hide Snapshot;
      InHand(w, m.p, Head(w.procs[m.p]));
    }
  }

  // ----- exactly when the account is not kept -----

  // Someone else's duties will say it.
  ghost predicate UntoldElsewhere(owed: map<nat, seq<Duty>>, p: nat, id: string, f: Fact) {
    exists q :: q in owed && q != p && ToTell(owed[q], id, f)
  }

  lemma UntoldSplits(owed: map<nat, seq<Duty>>, p: nat, duties: seq<Duty>, id: string, f: Fact)
    ensures Untold(owed[p := duties], id, f) <==> ToTell(duties, id, f) || UntoldElsewhere(owed, p, id, f)
    ensures p in owed ==> (Untold(owed, id, f) <==> ToTell(owed[p], id, f) || UntoldElsewhere(owed, p, id, f))
    ensures p !in owed ==> (Untold(owed, id, f) <==> UntoldElsewhere(owed, p, id, f))
  {
    hide ToTell;
    assert owed[p := duties][p] == duties;
    forall q | q != p ensures (q in owed[p := duties] <==> q in owed) && (q in owed ==> owed[p := duties][q] == owed[q]) {}
  }

  lemma FirstOrRest(duties: seq<Duty>, id: string, f: Fact)
    requires duties != []
    ensures ToTell(duties, id, f) <==> (duties[0].Record? && Says(duties[0].e, id, f)) || ToTell(duties[1..], id, f)
  {
    hide Says;
    assert forall i :: 0 <= i < |duties| - 1 ==> duties[1..][i] == duties[i + 1];
    if i :| 0 <= i < |duties| && duties[i].Record? && Says(duties[i].e, id, f) {
      if i > 0 {
        assert duties[1..][i - 1] == duties[i];
      }
    }
  }

  lemma ToldMore(log: seq<AuditEvent>, e: AuditEvent, id: string, f: Fact)
    ensures Told(Appended(log, e), id, f) <==> Told(log, id, f) || Says(e, id, f)
  {
    var more := Appended(log, e);
    assert forall i :: 0 <= i < |log| ==> more[i] == log[i];
    assert Says(more[|log|], id, f) <==> Says(e, id, f);
    if Says(e, id, f) {
      assert Says(more[|log|], id, f);
    }
  }

  // The turns after which the account is not kept, judged on the state before them: an event that is
  // lost, by a failed append or a restart, and that neither the log nor anybody else will have; and the
  // late branch on a pending request whose write fails.
  ghost predicate Misses(j: Journal, t: Turn) {
    match t
    case Discharge(p, up) =>
      && Busy(j, p) && !up && j.owed[p][0].Record?
      && exists id, f :: LosesOnly(j, p, id, f)
    case Act(m, _, _) =>
      if m.Restart? then exists id, f :: Untold(j.owed, id, f) && !Told(j.log, id, f)
      else SpeaksTooSoon(j, t)
  }

  ghost predicate LosesOnly(j: Journal, p: nat, id: string, f: Fact)
    requires Busy(j, p) && j.owed[p][0].Record?
  {
    && Says(j.owed[p][0].e, id, f) && !Told(j.log, id, f)
    && !ToTell(j.owed[p][1..], id, f) && !UntoldElsewhere(j.owed, p, id, f)
  }

  predicate SpeaksTooSoon(j: Journal, t: Turn) {
    && t.Act? && !t.m.Restart? && !Busy(j, t.m.p) && FailsLate(j.w, t.m)
    && var id := j.w.procs[t.m.p].req.id; id in j.w.reqs && j.w.reqs[id].status == Pending
  }

  lemma DischargeAccounts(cfg: Config, j: Journal, p: nat, up: bool)
    requires Accounted(j) && Busy(j, p)
    ensures Accounted(Discharged(cfg, j, p, up)) <==> !Misses(j, Discharge(p, up))
  {
    var d, rest := j.owed[p][0], j.owed[p][1..];
    var j' := Discharged(cfg, j, p, up);
    hide Accounted;
    forall id, f
      ensures Told(j'.log, id, f) || Untold(j'.owed, id, f) <==>
              (Told(j.log, id, f) || Untold(j.owed, id, f)) && !(!up && d.Record? && LosesOnly(j, p, id, f))
    {
      hide Told, ToTell, Says, Untold, UntoldElsewhere, Appended;
      FirstOrRest(j.owed[p], id, f);
      UntoldSplits(j.owed, p, j'.owed[p], id, f);
      assert j'.owed == j.owed[p := j'.owed[p]];
      if d.Record? {
        ToldMore(j.log, d.e, id, f);
      } else if j'.owed[p] != rest {
        FirstOrRest(j'.owed[p], id, f);
        assert j'.owed[p][1..] == rest;
      }
    }
    AccountCompares(j, j', p, !up && d.Record?);
  }

  lemma AccountCompares(j: Journal, j': Journal, p: nat, lost: bool)
    requires Accounted(j) && j'.w.reqs == j.w.reqs && Busy(j, p) && (lost ==> j.owed[p][0].Record?)
    requires forall id, f :: Told(j'.log, id, f) || Untold(j'.owed, id, f) <==>
               (Told(j.log, id, f) || Untold(j.owed, id, f)) && !(lost && LosesOnly(j, p, id, f))
    ensures Accounted(j') <==> !(lost && exists id, f :: LosesOnly(j, p, id, f))
  {
    if lost {
      forall id, f | LosesOnly(j, p, id, f) ensures Untold(j.owed, id, f) {
        FirstOrRest(j.owed[p], id, f);
      }
    }
    hide Told, Untold, LosesOnly, Holds;
  }

  lemma RestartAccounts(cfg: Config, j: Journal, t: Turn)
    requires Accounted(j) && t.Act? && t.m.Restart?
    ensures Accounted(Turned(cfg, j, t)) <==> !Misses(j, t)
  {
    hide Told, Holds;
  }

  lemma CallAccounts(cfg: Config, j: Journal, t: Turn)
    requires Accounted(j) && Usable(j.w) && t.Act? && !t.m.Restart? && !Busy(j, t.m.p) && Disjoint(j.w, t.m)
    ensures Accounted(Turned(cfg, j, t)) <==> !Misses(j, t)
  {
    var w', duties := Next(cfg, j.w, t.m), Duties(cfg, j.w, t.m, t.actor, t.breakGlass);
    var j' := Turned(cfg, j, t);
    forall id, f
      ensures Untold(j'.owed, id, f) <==> Untold(j.owed, id, f) || ToTell(duties, id, f)
      ensures Holds(w'.reqs, id, f) <==> Holds(j.w.reqs, id, f) || (!FailsLate(j.w, t.m) && ToTell(duties, id, f))
    {
      hide Next, Duties, Usable, Disjoint, FailsLate, Holds;
      CallMakesSo(cfg, j.w, t.m, t.actor, t.breakGlass, id, f);
      UntoldSplits(j.owed, t.m.p, duties, id, f);
    }
    assert j'.log == j.log && j'.w == w';
    if FailsLate(j.w, t.m) {
      LateSaysLapsed(cfg, j, t);
      var id := j.w.procs[t.m.p].req.id;
      assert Misses(j, t) <==> j.w.reqs[id].status == Pending;
      hide Told, Untold, ToTell, Next, Duties, Usable, Disjoint, Turned;
      assert Untold(j'.owed, id, Lapsed);
      assert Holds(w'.reqs, id, Lapsed) <==> j.w.reqs[id].status == Expired;
    } else {
      hide Told, Untold, ToTell, Next, Duties, Usable, Disjoint, Turned;
    }
  }

  // A late branch whose write fails will say that a request expired which is pending, or expired already.
  lemma LateSaysLapsed(cfg: Config, j: Journal, t: Turn)
    requires Usable(j.w) && t.Act? && !t.m.Restart? && Disjoint(j.w, t.m) && FailsLate(j.w, t.m)
    ensures var r := j.w.procs[t.m.p].req;
            && r.id in j.w.reqs && j.w.reqs[r.id].status in {Pending, Expired}
            && forall id, f :: ToTell(Duties(cfg, j.w, t.m, t.actor, t.breakGlass), id, f) <==> id == r.id && f == Lapsed
  {
    hide ToTell, Duties, Usable, Disjoint;
    var r := j.w.procs[t.m.p].req;
    HeadInHand(j.w.procs[t.m.p]);
    InHand(j.w, t.m.p, r);
    forall id, f ensures ToTell(Duties(cfg, j.w, t.m, t.actor, t.breakGlass), id, f) <==> id == r.id && f == Lapsed {
      DutiesSay(cfg, j.w, t.m, t.actor, t.breakGlass, id, f);
    }
  }

  // A turn, whatever it is and whatever fails, keeps the account if and only if it is none of those.
  lemma TurnAccountsExactly(cfg: Config, j: Journal, t: Turn)
    requires Accounted(j) && Usable(j.w) && FreeTurn(j, t)
    ensures Accounted(Turned(cfg, j, t)) <==> !Misses(j, t)
  {
    hide Accounted, Usable, Disjoint, Next, Duties, Discharged;
    match t
    case Discharge(p, up) => if Busy(j, p) { DischargeAccounts(cfg, j, p, up); }
    case Act(m, _, _) =>
      if m.Restart? {
        RestartAccounts(cfg, j, t);
      } else if !Busy(j, m.p) {
        hide Misses, Turned;
        CallAccounts(cfg, j, t);
      }
  }

  lemma TurnIsUsable(cfg: Config, j: Journal, t: Turn)
    requires Usable(j.w) && FreeTurn(j, t)
    ensures Usable(Turned(cfg, j, t).w)
  {
    hide Usable, Disjoint, Next, Duties;
    if t.Act? && (t.m.Restart? || !Busy(j, t.m.p)) {
      NextIsUsable(cfg, j.w, t.m);
    }
  }

  ghost predicate NeverMisses(cfg: Config, j: Journal, turns: seq<Turn>)
    decreases |turns|
  {
    turns == [] || (!Misses(j, turns[0]) && NeverMisses(cfg, Turned(cfg, j, turns[0]), turns[1..]))
  }

  ghost predicate AccountedAlways(cfg: Config, j: Journal, turns: seq<Turn>)
    decreases |turns|
  {
    Accounted(j) && (turns == [] || AccountedAlways(cfg, Turned(cfg, j, turns[0]), turns[1..]))
  }

  // Over any interleaving of calls and duties, the log with what is about to be added to it says at all
  // times exactly what is so, if and only if no turn misses.
  lemma {:induction false} AccountKeptExactly(cfg: Config, j: Journal, turns: seq<Turn>)
    requires Accounted(j) && Usable(j.w) && FreeTurns(cfg, j, turns)
    ensures AccountedAlways(cfg, j, turns) <==> NeverMisses(cfg, j, turns)
    decreases |turns|
  {
    hide Accounted, Usable, Misses, Turned, FreeTurn;
    if turns != [] {
      var j' := Turned(cfg, j, turns[0]);
      TurnAccountsExactly(cfg, j, turns[0]);
      TurnIsUsable(cfg, j, turns[0]);
      if Accounted(j') {
        AccountKeptExactly(cfg, j', turns[1..]);
      }
    }
  }

  // ----- what the log says when nothing is about to be added -----

  predicate Quiet(j: Journal) {
    forall p :: p in j.owed ==> j.owed[p] == []
  }

  // The furthest of what the log says about a request, in whatever order it says it.
  function Furthest(log: seq<AuditEvent>, id: string): Option<Status> {
    if Told(log, id, Over) then Some(Released)
    else if Told(log, id, Lapsed) then Some(Expired)
    else if Told(log, id, Agreed) then Some(Approved)
    else if Told(log, id, Asked) then Some(Pending)
    else None
  }

  lemma FurthestIsStatus(j: Journal, id: string)
    requires Accounted(j) && Quiet(j) && (id in j.w.reqs ==> j.w.reqs[id].status != Denied)
    ensures Furthest(j.log, id) == if id in j.w.reqs then Some(j.w.reqs[id].status) else None
  {
    hide Told;
    forall f ensures !Untold(j.owed, id, f) {}
    assert forall f :: Holds(j.w.reqs, id, f) <==> Told(j.log, id, f);
  }

  // ----- notifications -----

  function FactOf(kind: Kind): Fact {
    match kind
    case PendingApprovers => Asked
    case ApprovedRequester => Agreed
    case ExpiredRequester => Lapsed
    case ReleasedRequester(_) => Over
  }

  // What the mark announces is so. Nothing announces a release without saying why.
  predicate TrueMark(reqs: map<string, Request>, mark: Mark) {
    Holds(reqs, mark.requestId, FactOf(mark.kind)) && mark.kind != ReleasedRequester(ByRelease)
  }

  predicate HonestDuties(j: Journal, duties: seq<Duty>) {
    forall i :: 0 <= i < |duties| ==>
      match duties[i]
      case Record(_) => true
      case Tell(mark) => TrueMark(j.w.reqs, mark)
      case Send(mark) => i == 0 && mark in j.marks && mark !in j.posts
  }

  predicate Sends(duties: seq<Duty>, mark: Mark) {
    duties != [] && duties[0] == Send(mark)
  }

  // Every mark, stored or to be tried, announces something that is so; each post was made once, after
  // its mark; and no mark is being posted by two operations.
  ghost predicate Honest(j: Journal) {
    && OnceEach(j.marks, j.posts)
    && (forall mark :: mark in j.marks ==> TrueMark(j.w.reqs, mark))
    && (forall p :: p in j.owed ==> HonestDuties(j, j.owed[p]))
    && (forall p, q, mark :: p in j.owed && q in j.owed && p != q && Sends(j.owed[p], mark) ==> !Sends(j.owed[q], mark))
  }

  lemma DutiesTell(cfg: Config, w: World, m: Move, actor: string, breakGlass: bool, i: nat)
    requires var duties := Duties(cfg, w, m, actor, breakGlass); i < |duties| && !duties[i].Record?
    ensures var duties := Duties(cfg, w, m, actor, breakGlass);
            && duties[i].Tell? && duties[i].mark.kind != ReleasedRequester(ByRelease)
            && ToTell(duties, duties[i].mark.requestId, FactOf(duties[i].mark.kind))
            && (FailsLate(w, m) ==> duties[i].mark == Mark(w.procs[m.p].req.id, ExpiredRequester))
  {
    var duties := Duties(cfg, w, m, actor, breakGlass);
    assert Says(duties[0].e, duties[i].mark.requestId, FactOf(duties[i].mark.kind));
  }

  lemma CallIsHonest(cfg: Config, j: Journal, t: Turn)
    requires Honest(j) && Usable(j.w) && t.Act? && !t.m.Restart? && !Busy(j, t.m.p) && Disjoint(j.w, t.m)
    ensures Honest(Turned(cfg, j, t)) <==> !SpeaksTooSoon(j, t)
  {
    var w', duties := Next(cfg, j.w, t.m), Duties(cfg, j.w, t.m, t.actor, t.breakGlass);
    var j' := Turned(cfg, j, t);
    hide Usable, Disjoint, Next, Duties, ToTell;
    forall mark | TrueMark(j.w.reqs, mark) ensures TrueMark(w'.reqs, mark) {
      CallMakesSo(cfg, j.w, t.m, t.actor, t.breakGlass, mark.requestId, FactOf(mark.kind));
    }
    forall p | p in j'.owed && p != t.m.p ensures HonestDuties(j', j'.owed[p]) {
      assert HonestDuties(j, j.owed[p]);
    }
    DutiesAreHonest(cfg, j, t);
    assert j'.owed[t.m.p] == duties;
    hide TrueMark, HonestDuties;
  }

  lemma DutiesAreHonest(cfg: Config, j: Journal, t: Turn)
    requires Usable(j.w) && t.Act? && !t.m.Restart? && !Busy(j, t.m.p) && Disjoint(j.w, t.m)
    ensures var duties, j' := Duties(cfg, j.w, t.m, t.actor, t.breakGlass), Turned(cfg, j, t);
            && (HonestDuties(j', duties) <==> !SpeaksTooSoon(j, t))
            && forall mark :: !Sends(duties, mark)
  {
    var w', duties := Next(cfg, j.w, t.m), Duties(cfg, j.w, t.m, t.actor, t.breakGlass);
    hide Usable, Disjoint, Next, ToTell;
    forall i | 0 <= i < |duties| && !duties[i].Record?
      ensures duties[i].Tell? && (TrueMark(w'.reqs, duties[i].mark) <==> !SpeaksTooSoon(j, t))
    {
      DutiesTell(cfg, j.w, t.m, t.actor, t.breakGlass, i);
      var mark := duties[i].mark;
      CallMakesSo(cfg, j.w, t.m, t.actor, t.breakGlass, mark.requestId, FactOf(mark.kind));
      if FailsLate(j.w, t.m) {
        hide Duties;
        LateSaysLapsed(cfg, j, t);
      }
    }
    if SpeaksTooSoon(j, t) {
      assert !duties[1].Record?;
    }
  }

  lemma DischargeIsHonest(cfg: Config, j: Journal, p: nat, up: bool)
    requires Honest(j) && Busy(j, p)
    ensures Honest(Discharged(cfg, j, p, up))
  {
    var j' := Discharged(cfg, j, p, up);
    var rest := j.owed[p][1..];
    hide TrueMark;
    assert HonestDuties(j, j.owed[p]);
    forall q | q in j'.owed ensures HonestDuties(j', j'.owed[q]) {
      assert HonestDuties(j, j.owed[q]);
      if q == p {
        forall i | 0 <= i < |rest| ensures rest[i] == j.owed[p][i + 1] {}
      } else if j.owed[p][0].Send? {
        assert Sends(j.owed[p], j.owed[p][0].mark);
      }
    }
    forall q, r, mark | q in j'.owed && r in j'.owed && q != r && Sends(j'.owed[q], mark) ensures !Sends(j'.owed[r], mark) {
      assert HonestDuties(j, j.owed[q]) && HonestDuties(j, j.owed[r]);
    }
  }

  // A turn, whatever fails, leaves all that is announced true, and announced once, if and only if it is
  // not a late branch on a pending request whose write fails.
  lemma TurnIsHonestExactly(cfg: Config, j: Journal, t: Turn)
    requires Honest(j) && Usable(j.w) && FreeTurn(j, t)
    ensures Honest(Turned(cfg, j, t)) <==> !SpeaksTooSoon(j, t)
  {
    if t.Discharge? {
      hide Honest, Usable, Discharged;
      if Busy(j, t.p) { DischargeIsHonest(cfg, j, t.p, t.up); }
    } else if t.m.Restart? {
      hide Usable;
    } else if !Busy(j, t.m.p) {
      hide Honest, Usable, Turned, SpeaksTooSoon, Disjoint;
      CallIsHonest(cfg, j, t);
    }
  }

  ghost predicate NeverTooSoon(cfg: Config, j: Journal, turns: seq<Turn>)
    decreases |turns|
  {
    turns == [] || (!SpeaksTooSoon(j, turns[0]) && NeverTooSoon(cfg, Turned(cfg, j, turns[0]), turns[1..]))
  }

  lemma {:induction false} HonestThroughout(cfg: Config, j: Journal, turns: seq<Turn>)
    requires Honest(j) && Usable(j.w) && FreeTurns(cfg, j, turns) && NeverTooSoon(cfg, j, turns)
    ensures Honest(TurnAll(cfg, j, turns))
    decreases |turns|
  {
    hide Honest, Usable, SpeaksTooSoon, Turned, FreeTurn;
    if turns != [] {
      TurnIsHonestExactly(cfg, j, turns[0]);
      TurnIsUsable(cfg, j, turns[0]);
      HonestThroughout(cfg, Turned(cfg, j, turns[0]), turns[1..]);
    }
  }

  // ----- what can be posted about one request -----

  const LAPSE_KINDS: set<Kind> := {PendingApprovers, ExpiredRequester}
  const GRANT_KINDS: set<Kind> := {PendingApprovers, ApprovedRequester, ReleasedRequester(ByExpiry), ReleasedRequester(ByEarlyRelease)}

  lemma {:induction false} KindsDiffer(posts: seq<Mark>, id: string)
    requires forall i, j :: 0 <= i < j < |posts| ==> posts[i] != posts[j]
    ensures forall i, j :: 0 <= i < j < |KindsOf(posts, id)| ==> KindsOf(posts, id)[i] != KindsOf(posts, id)[j]
  {
    if posts != [] {
      var init, last := posts[..|posts| - 1], posts[|posts| - 1];
      KindsDiffer(init, id);
      KindsArePosts(init, id);
      assert last.requestId == id ==> last.kind !in KindsOf(init, id);
    }
  }

  lemma {:induction false} DifferentWithin(kinds: seq<Kind>, all: set<Kind>)
    requires (forall i, j :: 0 <= i < j < |kinds| ==> kinds[i] != kinds[j]) && (forall k :: k in kinds ==> k in all)
    ensures |kinds| <= |all|
  {
    if kinds != [] {
      DifferentWithin(kinds[..|kinds| - 1], all - {kinds[|kinds| - 1]});
    }
  }

  lemma KindOfPath(reqs: map<string, Request>, id: string, k: Kind)
    requires TrueMark(reqs, Mark(id, k))
    ensures id in reqs && k in if reqs[id].status == Expired then LAPSE_KINDS else GRANT_KINDS
  {
    if k.ReleasedRequester? {
      assert k.reason == ByExpiry || k.reason == ByEarlyRelease;
    }
  }

  // Whatever interleaves, the posts about a request are of different kinds, and all of them from one
  // path of the lifecycle: two at most if it lapsed, four at most if it was granted. Their order is open.
  lemma PostsFromOnePath(j: Journal, id: string)
    requires Honest(j)
    ensures var kinds := KindsOf(j.posts, id);
            && (forall i, k :: 0 <= i < k < |kinds| ==> kinds[i] != kinds[k])
            && (((forall k :: k in kinds ==> k in LAPSE_KINDS) && |kinds| <= 2)
                || ((forall k :: k in kinds ==> k in GRANT_KINDS) && |kinds| <= 4))
  {
    var kinds := KindsOf(j.posts, id);
    KindsArePosts(j.posts, id);
    KindsDiffer(j.posts, id);
    forall k | k in kinds ensures id in j.w.reqs && k in if j.w.reqs[id].status == Expired then LAPSE_KINDS else GRANT_KINDS {
      KindOfPath(j.w.reqs, id, k);
    }
    hide KindsOf, HonestDuties, Honest;
    if id in j.w.reqs && j.w.reqs[id].status == Expired {
      DifferentWithin(kinds, LAPSE_KINDS);
    } else {
      DifferentWithin(kinds, GRANT_KINDS);
    }
  }

  // ----- a log out of order -----

  const NOTHING: Journal := Journal(World(map[], {}, map[]), [], {}, [], map[])

  // Nothing fails in the turn.
  predicate Smooth(t: Turn) {
    match t
    case Discharge(_, up) => up
    case Act(m, _, _) => !m.Restart? && (m.Call? ==> m.outcome == Done)
  }

  // The run goes on by one turn in which nothing fails, to `j'`.
  lemma Go(cfg: Config, j: Journal, turns: seq<Turn>, t: Turn, j': Journal) returns (longer: seq<Turn>)
    requires FreeTurns(cfg, j, turns) && FreeTurn(TurnAll(cfg, j, turns), t) && Turned(cfg, TurnAll(cfg, j, turns), t) == j'
    requires Smooth(t) && forall i :: 0 <= i < |turns| ==> Smooth(turns[i])
    ensures longer == turns + [t] && FreeTurns(cfg, j, longer) && TurnAll(cfg, j, longer) == j'
    ensures forall i :: 0 <= i < |longer| ==> Smooth(longer[i])
  {
    hide Turned, FreeTurn, Smooth;
    OneMoreTurn(cfg, j, turns, t);
    longer := turns + [t];
  }

  lemma {:induction false} OneMoreTurn(cfg: Config, j: Journal, turns: seq<Turn>, t: Turn)
    ensures TurnAll(cfg, j, turns + [t]) == Turned(cfg, TurnAll(cfg, j, turns), t)
    ensures FreeTurns(cfg, j, turns + [t]) <==> FreeTurns(cfg, j, turns) && FreeTurn(TurnAll(cfg, j, turns), t)
    decreases |turns|
  {
    hide Turned, FreeTurn;
    if turns == [] {
      assert [t][1..] == [] && turns + [t] == [t];
    } else {
      assert (turns + [t])[0] == turns[0] && (turns + [t])[1..] == turns[1..] + [t];
      OneMoreTurn(cfg, Turned(cfg, j, turns[0]), turns[1..], t);
    }
  }

  lemma {:induction false} SmoothIsAccounted(cfg: Config, j: Journal, turns: seq<Turn>)
    requires Accounted(j) && Usable(j.w) && FreeTurns(cfg, j, turns) && forall i :: 0 <= i < |turns| ==> Smooth(turns[i])
    ensures Accounted(TurnAll(cfg, j, turns))
    decreases |turns|
  {
    hide Accounted, Usable, Turned, FreeTurn;
    if turns != [] {
      assert Smooth(turns[0]) && !Misses(j, turns[0]);
      TurnAccountsExactly(cfg, j, turns[0]);
      TurnIsUsable(cfg, j, turns[0]);
      assert forall i :: 0 <= i < |turns| - 1 ==> turns[1..][i] == turns[i + 1];
      hide Misses, Smooth;
      SmoothIsAccounted(cfg, Turned(cfg, j, turns[0]), turns[1..]);
    }
  }

  lemma ActTurn(cfg: Config, j: Journal, m: Move, actor: string, w': World, duties: seq<Duty>)
    requires !m.Restart? && !Busy(j, m.p) && (m.Call? ==> m.outcome == Done)
    requires Next(cfg, j.w, m) == w' && Allowed(j.w, m) && Duties(cfg, j.w, m, actor, false) == duties
    ensures var t := Act(m, actor, false);
            && Turned(cfg, j, t) == j.(w := w', owed := j.owed[m.p := duties])
            && FreeTurn(j, t) && Smooth(t)
  {
    hide Next, Duties, Disjoint, Settles;
  }

  lemma RecordTurn(cfg: Config, j: Journal, p: nat, e: AuditEvent, rest: seq<Duty>)
    requires p in j.owed && j.owed[p] == [Record(e)] + rest
    ensures Turned(cfg, j, Discharge(p, true)) == j.(log := Appended(j.log, e), owed := j.owed[p := rest])
    ensures FreeTurn(j, Discharge(p, true)) && Smooth(Discharge(p, true))
  {
    assert j.owed[p][1..] == rest;
  }

  lemma TellTurn(cfg: Config, j: Journal, p: nat, mark: Mark)
    requires cfg.notifications && p in j.owed && j.owed[p] == [Tell(mark)] && mark !in j.marks
    ensures Turned(cfg, j, Discharge(p, true)) == j.(marks := j.marks + {mark}, owed := j.owed[p := [Send(mark)]])
    ensures FreeTurn(j, Discharge(p, true)) && Smooth(Discharge(p, true))
  {
    assert [Send(mark)] + j.owed[p][1..] == [Send(mark)];
  }

  lemma SendTurn(cfg: Config, j: Journal, p: nat, mark: Mark)
    requires p in j.owed && j.owed[p] == [Send(mark)]
    ensures Turned(cfg, j, Discharge(p, true)) == j.(posts := j.posts + [mark], owed := j.owed[p := []])
    ensures FreeTurn(j, Discharge(p, true)) && Smooth(Discharge(p, true))
  {}

  // The operation tries its mark, which is new, and posts.
  lemma Notifies(cfg: Config, start: Journal, turns: seq<Turn>, p: nat, mark: Mark) returns (longer: seq<Turn>)
    requires FreeTurns(cfg, start, turns) && forall i :: 0 <= i < |turns| ==> Smooth(turns[i])
    requires var j := TurnAll(cfg, start, turns); cfg.notifications && p in j.owed && j.owed[p] == [Tell(mark)] && mark !in j.marks
    ensures FreeTurns(cfg, start, longer) && forall i :: 0 <= i < |longer| ==> Smooth(longer[i])
    ensures var j := TurnAll(cfg, start, turns);
            TurnAll(cfg, start, longer) == j.(marks := j.marks + {mark}, posts := j.posts + [mark], owed := j.owed[p := []])
  {
    hide Turned, FreeTurns, FreeTurn, Smooth, TurnAll;
    var j := TurnAll(cfg, start, turns);
    TellTurn(cfg, j, p, mark);
    var j1 := j.(marks := j.marks + {mark}, owed := j.owed[p := [Send(mark)]]);
    longer := Go(cfg, start, turns, Discharge(p, true), j1);
    SendTurn(cfg, j1, p, mark);
    longer := Go(cfg, start, longer, Discharge(p, true), j.(marks := j.marks + {mark}, posts := j.posts + [mark], owed := j.owed[p := []]));
  }

  // A request is made, logged and announced.
  lemma AskedTurns(cfg: Config, r: Request) returns (turns: seq<Turn>)
    requires cfg.notifications && r.status == Pending
    ensures FreeTurns(cfg, NOTHING, turns) && forall i :: 0 <= i < |turns| ==> Smooth(turns[i])
    ensures var mark := Mark(r.id, PendingApprovers);
            TurnAll(cfg, NOTHING, turns) ==
            Journal(World(map[r.id := r], {}, map[]), Appended([], Event(RequestCreated, r.username, r, "pending elevation request", false)), {mark}, [mark], map[0 := []])
  {
    hide Next, Allowed, Turned, FreeTurn, Smooth, Appended;
    var e, mark := Event(RequestCreated, r.username, r, "pending elevation request", false), Mark(r.id, PendingApprovers);
    var w := World(map[r.id := r], {}, map[]);
    InsertCall(cfg, NOTHING.w, 0, r);
    ActTurn(cfg, NOTHING, Insert(0, r), r.username, w, [Record(e), Tell(mark)]);
    var j1 := NOTHING.(w := w, owed := map[0 := [Record(e), Tell(mark)]]);
    turns := Go(cfg, NOTHING, [], Act(Insert(0, r), r.username, false), j1);
    assert j1.owed[0] == [Record(e)] + [Tell(mark)];
    RecordTurn(cfg, j1, 0, e, [Tell(mark)]);
    turns := Go(cfg, NOTHING, turns, Discharge(0, true), j1.(log := Appended([], e), owed := map[0 := [Tell(mark)]]));
    turns := Notifies(cfg, NOTHING, turns, 0, mark);
  }

  // An operation makes a call, which brings its duties with it.
  lemma Acts(cfg: Config, turns: seq<Turn>, m: Move, actor: string, w': World, duties: seq<Duty>) returns (longer: seq<Turn>)
    requires FreeTurns(cfg, NOTHING, turns) && forall i :: 0 <= i < |turns| ==> Smooth(turns[i])
    requires !m.Restart? && (m.Call? ==> m.outcome == Done)
    requires var j := TurnAll(cfg, NOTHING, turns);
             !Busy(j, m.p) && Next(cfg, j.w, m) == w' && Allowed(j.w, m) && Duties(cfg, j.w, m, actor, false) == duties
    ensures FreeTurns(cfg, NOTHING, longer) && forall i :: 0 <= i < |longer| ==> Smooth(longer[i])
    ensures var j := TurnAll(cfg, NOTHING, turns);
            TurnAll(cfg, NOTHING, longer) == j.(w := w', owed := j.owed[m.p := duties])
  {
    hide Next, Allowed, Duties, Turned, FreeTurn, FreeTurns, Smooth, TurnAll;
    var j := TurnAll(cfg, NOTHING, turns);
    ActTurn(cfg, j, m, actor, w', duties);
    longer := Go(cfg, NOTHING, turns, Act(m, actor, false), j.(w := w', owed := j.owed[m.p := duties]));
  }

  function GrantDuties(cfg: Config, r: Request, actor: string, notes: string): seq<Duty> {
    [Record(Event(RequestApproved, actor, r, "notes: " + notes, false)), Record(Event(GrantActive, actor, r, "user added to " + cfg.activeGroup, false)), Tell(Mark(r.id, ApprovedRequester))]
  }

  // The request is granted, and the approver has not said so yet.
  lemma GrantedUntold(cfg: Config, r: Request, now: Instant, actor: string, notes: string) returns (turns: seq<Turn>)
    requires cfg.notifications && r.status == Pending && !Late(r.requestExpiresAt, now)
    ensures FreeTurns(cfg, NOTHING, turns) && forall i :: 0 <= i < |turns| ==> Smooth(turns[i])
    ensures var mark := Mark(r.id, PendingApprovers);
            TurnAll(cfg, NOTHING, turns) ==
            Journal(World(map[r.id := ApprovedRow(cfg, r, now, actor, notes)], {r.username}, map[]),
                    Appended([], Event(RequestCreated, r.username, r, "pending elevation request", false)), {mark}, [mark], map[0 := [], 1 := GrantDuties(cfg, r, actor, notes)])
  {
    hide Next, Allowed, Turned, FreeTurn, Smooth, Appended, ApprovedRow, Late, Event, TurnAll, FreeTurns;
    KeepsId(cfg, r, now, actor, notes);
    turns := AskedTurns(cfg, r);
    var w0 := World(map[r.id := r], {}, map[]);
    var w1 := w0.(procs := map[1 := Approving(r, now, actor, notes)]);
    ReadCall(cfg, w0, 1, r, now, actor, notes);
    turns := Acts(cfg, turns, BeginApprove(1, r.id, now, actor, notes), actor, w1, []);
    var w2 := World(w1.reqs, {r.username}, map[1 := Granting(r, now, actor, notes)]);
    AddCall(cfg, w1, 1, r, now, actor, notes, now);
    turns := Acts(cfg, turns, Call(1, Done, now, []), actor, w2, []);
    var w3 := World(map[r.id := ApprovedRow(cfg, r, now, actor, notes)], {r.username}, map[]);
    GrantCall(cfg, w2, 1, r, now, actor, notes, now);
    turns := Acts(cfg, turns, Call(1, Done, now, []), actor, w3, GrantDuties(cfg, r, actor, notes));
  }

  // The request is granted and released, and nobody has said so yet.
  lemma ReleasedUntold(cfg: Config, r: Request, now: Instant, at: Instant, actor: string, notes: string) returns (turns: seq<Turn>)
    requires cfg.notifications && r.status == Pending && r.username != "" && !Late(r.requestExpiresAt, now)
    ensures FreeTurns(cfg, NOTHING, turns) && forall i :: 0 <= i < |turns| ==> Smooth(turns[i])
    ensures var granted, mark := ApprovedRow(cfg, r, now, actor, notes), Mark(r.id, PendingApprovers);
            TurnAll(cfg, NOTHING, turns) ==
            Journal(World(map[r.id := ReleasedRow(granted, at)], {}, map[]), Appended([], Event(RequestCreated, r.username, r, "pending elevation request", false)), {mark}, [mark],
                    map[0 := [], 1 := GrantDuties(cfg, r, actor, notes), 2 := EndDuties(granted, r.username, EarlyRelease, "removed from " + cfg.activeGroup)])
  {
    hide Next, Allowed, Turned, FreeTurn, Smooth, Appended, ApprovedRow, Late, Event, TurnAll, FreeTurns, GrantDuties;
    KeepsId(cfg, r, now, actor, notes);
    var granted := ApprovedRow(cfg, r, now, actor, notes);
    turns := GrantedUntold(cfg, r, now, actor, notes);
    var w3 := World(map[r.id := granted], {r.username}, map[]);
    var w4 := w3.(procs := map[2 := Releasing(granted)]);
    ReadToReleaseCall(cfg, w3, 2, granted);
    turns := Acts(cfg, turns, BeginRelease(2, r.id), r.username, w4, []);
    var w5 := World(w3.reqs, {}, map[2 := Removed(granted)]);
    RemoveCall(cfg, w4, 2, granted, at);
    turns := Acts(cfg, turns, Call(2, Done, at, []), r.username, w5, []);
    EndCall(cfg, w5, 2, granted, at);
    turns := Acts(cfg, turns, Call(2, Done, at, []), r.username, World(map[r.id := ReleasedRow(granted, at)], {}, map[]),
                  EndDuties(granted, r.username, EarlyRelease, "removed from " + cfg.activeGroup));
  }

  // An operation logs its next event.
  lemma LogsNext(cfg: Config, turns: seq<Turn>, p: nat, e: AuditEvent, rest: seq<Duty>) returns (longer: seq<Turn>)
    requires FreeTurns(cfg, NOTHING, turns) && forall i :: 0 <= i < |turns| ==> Smooth(turns[i])
    requires var j := TurnAll(cfg, NOTHING, turns); p in j.owed && j.owed[p] == [Record(e)] + rest
    ensures FreeTurns(cfg, NOTHING, longer) && forall i :: 0 <= i < |longer| ==> Smooth(longer[i])
    ensures var j := TurnAll(cfg, NOTHING, turns);
            TurnAll(cfg, NOTHING, longer) == j.(log := Appended(j.log, e), owed := j.owed[p := rest])
  {
    hide Turned, FreeTurn, FreeTurns, Smooth, TurnAll, Appended;
    var j := TurnAll(cfg, NOTHING, turns);
    RecordTurn(cfg, j, p, e, rest);
    longer := Go(cfg, NOTHING, turns, Discharge(p, true), j.(log := Appended(j.log, e), owed := j.owed[p := rest]));
  }

  function OutOfOrder(cfg: Config, r: Request, actor: string, notes: string): seq<AuditEvent> {
    var log := Appended(Appended([], Event(RequestCreated, r.username, r, "pending elevation request", false)), Event(EarlyRelease, r.username, r, "removed from " + cfg.activeGroup, false));
    Appended(Appended(log, Event(RequestApproved, actor, r, "notes: " + notes, false)), Event(GrantActive, actor, r, "user added to " + cfg.activeGroup, false))
  }

  lemma OutOfOrderReplay(cfg: Config, r: Request, actor: string, notes: string)
    ensures r.id in Replay(OutOfOrder(cfg, r, actor, notes)) && Replay(OutOfOrder(cfg, r, actor, notes))[r.id] == Approved
  {
    hide Appended, Replay;
    var log := Appended(Appended([], Event(RequestCreated, r.username, r, "pending elevation request", false)), Event(EarlyRelease, r.username, r, "removed from " + cfg.activeGroup, false));
    var log' := Appended(log, Event(RequestApproved, actor, r, "notes: " + notes, false));
    ReplayAppended(log, Event(RequestApproved, actor, r, "notes: " + notes, false));
    ReplayAppended(log', Event(GrantActive, actor, r, "user added to " + cfg.activeGroup, false));
  }

  lemma KindsOfThree(id: string, a: Kind, b: Kind, c: Kind)
    ensures KindsOf([Mark(id, a)] + [Mark(id, b)] + [Mark(id, c)], id) == [a, b, c]
  {
    var one, two := [Mark(id, a)], [Mark(id, a)] + [Mark(id, b)];
    var three := two + [Mark(id, c)];
    assert three[..2] == two && two[..1] == one && one[..0] == [];
    assert KindsOf(one, id) == KindsOf([], id) + [a];
    assert KindsOf(two, id) == KindsOf(one, id) + [b];
    assert KindsOf(three, id) == KindsOf(two, id) + [c];
  }

  // Nothing fails and no approve shares its row: a release that comes between an approve's row and its
  // events logs and posts first. Replayed in order, the log ends with the request approved, and the
  // requester hears of the approval last; the furthest the log says is that the grant is over.
  lemma LogOutOfOrder(cfg: Config, r: Request, now: Instant, at: Instant, actor: string, notes: string) returns (turns: seq<Turn>)
    requires cfg.notifications && r.status == Pending && r.username != "" && !Late(r.requestExpiresAt, now)
    ensures FreeTurns(cfg, NOTHING, turns) && forall i :: 0 <= i < |turns| ==> Smooth(turns[i])
    ensures var j := TurnAll(cfg, NOTHING, turns);
            && Quiet(j) && Accounted(j)
            && j.w == World(map[r.id := ReleasedRow(ApprovedRow(cfg, r, now, actor, notes), at)], {}, map[])
            && r.id in Replay(j.log) && Replay(j.log)[r.id] == Approved
            && Furthest(j.log, r.id) == Some(Released)
            && KindsOf(j.posts, r.id) == [PendingApprovers, ReleasedRequester(ByEarlyRelease), ApprovedRequester]
  {
    hide Turned, FreeTurn, FreeTurns, Smooth, TurnAll, Appended, Furthest, Accounted, Replay, KindsOf, Late;
    var approved, active := Event(RequestApproved, actor, r, "notes: " + notes, false), Event(GrantActive, actor, r, "user added to " + cfg.activeGroup, false);
    var early := Event(EarlyRelease, r.username, r, "removed from " + cfg.activeGroup, false);
    var mark, last := Mark(r.id, ReleasedRequester(ByEarlyRelease)), Mark(r.id, ApprovedRequester);
    turns := ReleasedUntold(cfg, r, now, at, actor, notes);
    assert [Record(early), Tell(mark)] == [Record(early)] + [Tell(mark)];
    turns := LogsNext(cfg, turns, 2, early, [Tell(mark)]);
    turns := Notifies(cfg, NOTHING, turns, 2, mark);
    assert [Record(approved), Record(active), Tell(last)] == [Record(approved)] + [Record(active), Tell(last)];
    turns := LogsNext(cfg, turns, 1, approved, [Record(active), Tell(last)]);
    assert [Record(active), Tell(last)] == [Record(active)] + [Tell(last)];
    turns := LogsNext(cfg, turns, 1, active, [Tell(last)]);
    turns := Notifies(cfg, NOTHING, turns, 1, last);
    OutOfOrderReplay(cfg, r, actor, notes);
    KindsOfThree(r.id, PendingApprovers, ReleasedRequester(ByEarlyRelease), ApprovedRequester);
    NothingIsAccounted();
    SmoothIsAccounted(cfg, NOTHING, turns);
    FurthestIsStatus(TurnAll(cfg, NOTHING, turns), r.id);
  }

  lemma NothingIsAccounted()
    ensures Accounted(NOTHING) && Usable(NOTHING.w) && Honest(NOTHING)
  {}
}
