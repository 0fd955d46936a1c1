/** Whom the log names, one call at a time: what an operation logs about a row stays true of it whatever interleaves. */
module StepwiseProvenance {
  import opened Wrappers
  import opened Timestamp
  import opened Deadlines
  import opened Requests
  import opened AuditView
  import opened Storage
  import opened Protocol
  import opened Interleaving
  import opened StepwiseRows
  import opened Chronicle

  // The event is true of the row it is about: its user, its justification, and whoever is on record for
  // what it says.
  predicate Names(r: Request, e: AuditEvent) {
    && e.requestId == r.id && e.subject == r.username && e.justification == r.justification
    && match e.action
       case RequestCreated => e.detail == "pending elevation request"
       case RequestApproved => r.status in {Approved, Released} && e.actor == r.approvedBy && e.detail == "notes: " + r.approvalNotes
       case GrantActive => r.status in {Approved, Released} && e.actor == r.approvedBy
       case RequestExpired => e.actor == "system" && !e.breakGlass && e.detail in {"expired before approve", "request TTL elapsed"}
       case EarlyRelease => r.status == Released && e.actor != "" && !e.breakGlass
       case GrantExpired => r.status == Released && e.actor == "system" && !e.breakGlass && e.detail == "active TTL elapsed; revoked"
       case BreakGlassSession => false
  }

  predicate NamedIn(reqs: map<string, Request>, e: AuditEvent) {
    e.requestId in reqs && Names(reqs[e.requestId], e)
  }

  // So is every event in the log, and every one an operation is about to add to it.
  predicate Named(j: Journal) {
    && (forall i :: 0 <= i < |j.log| ==> NamedIn(j.w.reqs, j.log[i]))
    && (forall p, i :: p in j.owed && 0 <= i < |j.owed[p]| && j.owed[p][i].Record? ==> NamedIn(j.w.reqs, j.owed[p][i].e))
  }

  lemma NamesAfterShift(r: Request, r': Request, e: AuditEvent)
    requires Shifts(r, r') && Names(r, e)
    ensures Names(r', e)
  {}

  lemma NamedAfterNext(cfg: Config, w: World, m: Move, e: AuditEvent)
    requires Usable(w) && Disjoint(w, m) && NamedIn(w.reqs, e)
    ensures NamedIn(Next(cfg, w, m).reqs, e)
  {
    hide Usable, Disjoint, Next, Shifts, Names;
    NextShifts(cfg, w, m, e.requestId);
    NamesAfterShift(w.reqs[e.requestId], Next(cfg, w, m).reqs[e.requestId], e);
  }

  // What a call gives an operation to log is true of the row as the call leaves it.
  lemma DutiesAreNamed(cfg: Config, w: World, m: Move, actor: string, breakGlass: bool, i: nat)
    requires Usable(w) && Disjoint(w, m)
    requires i < |Duties(cfg, w, m, actor, breakGlass)| && Duties(cfg, w, m, actor, breakGlass)[i].Record?
    ensures NamedIn(Next(cfg, w, m).reqs, Duties(cfg, w, m, actor, breakGlass)[i].e)
  {
    hide Usable, OverdueRows, Late, NoGrantOn, Free, Enumerates;
    if m.Call? && !Idle(w.procs[m.p]) {
      HeadInHand(w.procs[m.p]);
      hide Snapshot;
      InHand(w, m.p, Head(w.procs[m.p]));
    }
  }

  lemma ActIsNamed(cfg: Config, j: Journal, t: Turn)
    requires Named(j) && Usable(j.w) && FreeTurn(j, t) && t.Act? && !t.m.Restart? && !Busy(j, t.m.p)
    ensures Named(Turned(cfg, j, t))
  {
    var duties := Duties(cfg, j.w, t.m, t.actor, t.breakGlass);
    var j' := Turned(cfg, j, t);
    hide Duties, Next, Usable, Disjoint, NamedIn;
    forall e | NamedIn(j.w.reqs, e) ensures NamedIn(j'.w.reqs, e) {
      NamedAfterNext(cfg, j.w, t.m, e);
    }
    forall i: nat | i < |duties| && duties[i].Record? ensures NamedIn(j'.w.reqs, duties[i].e) {
      DutiesAreNamed(cfg, j.w, t.m, t.actor, t.breakGlass, i);
    }
  }

  lemma DischargeIsNamed(cfg: Config, j: Journal, p: nat, up: bool)
    requires Named(j) && Busy(j, p)
    ensures Named(Discharged(cfg, j, p, up))
  {
    var j', rest := Discharged(cfg, j, p, up), j.owed[p][1..];
    hide Names;
    forall i | 0 <= i < |rest| ensures rest[i] == j.owed[p][i + 1] {}
  }

  // No turn, whatever it is and whatever fails, makes the log name the wrong one.
  lemma TurnIsNamed(cfg: Config, j: Journal, t: Turn)
    requires Named(j) && Usable(j.w) && FreeTurn(j, t)
    ensures Named(Turned(cfg, j, t))
  {
    if t.Discharge? {
      hide Named, Discharged;
      if Busy(j, t.p) { DischargeIsNamed(cfg, j, t.p, t.up); }
    } else if t.m.Restart? {
      hide NamedIn;
    } else if !Busy(j, t.m.p) {
      hide Named, Turned;
      ActIsNamed(cfg, j, t);
    }
  }

  // Over any interleaving in which approves keep their rows to themselves, with any failures and
  // restarts, an approval in the log names the approver on record, his notes, and the user of the row.
  lemma {:induction false} LogNamesTheApprover(cfg: Config, j: Journal, turns: seq<Turn>)
    requires Named(j) && Usable(j.w) && FreeTurns(cfg, j, turns)
    ensures Named(TurnAll(cfg, j, turns))
    decreases |turns|
  {
    hide Named, Usable, Turned, FreeTurn;
    if turns != [] {
      TurnIsNamed(cfg, j, turns[0]);
      TurnIsUsable(cfg, j, turns[0]);
      LogNamesTheApprover(cfg, Turned(cfg, j, turns[0]), turns[1..]);
    }
  }

  lemma NothingIsNamed()
    ensures Named(NOTHING)
  {}
}
