/** Runs from an empty table that reach the exceptions and the bound stated elsewhere. */
module Scenarios {
  import opened Wrappers
  import opened Text
  import opened Timestamp
  import opened Deadlines
  import opened Requests
  import opened AuditView
  import opened Protocol
  import opened Sweep
  import opened Runs
  import opened Lifecycle
  import opened Membership
  import opened AuditReplay
  import opened Elevation
  import Recovery

  // ----- operations -----

  const WORDS: string := "deadline"

  function Fine(at: Instant): Calls {
    Calls(true, Done, true, true, true, true, at)
  }

  function Ask(id: string, user: string, at: Instant): Op {
    CreateOp(user, "", WORDS, Yes, id, at, false, Fine(at))
  }

  function Allow(id: string, boss: string, at: Instant, c: Calls): Op {
    ApproveOp(boss, Yes, WORDS, id, at, false, c)
  }

  function End(id: string, at: Instant): Op {
    ReleaseOp("", Yes, id, Fine(at))
  }

  function Check(id: string, at: Instant): Op {
    ReconcileOp(Pass(at, [id], [id], true, true, _ => Fine(at)))
  }

  function Asked(cfg: Config, id: string, user: string, at: Instant): Request {
    NewRow(cfg, id, user, WORDS, at)
  }

  lemma WordsPass()
    ensures TrimSpace(WORDS) == WORDS && Size(WORDS) >= 8 && TrimSpace("") == ""
  {
    hide TrimSpace, Size;
    TrimOfTrimmed(WORDS);
    TrimOfTrimmed("");
  }

  lemma AskStep(cfg: Config, s: State, id: string, user: string, at: Instant)
    requires user != "" && id !in s.reqs
    ensures var s' := Step(cfg, s, Ask(id, user, at));
            s'.reqs == s.reqs[id := Asked(cfg, id, user, at)] && s'.active == s.active
  {
    hide Step, TrimSpace, Size, Trimmed;
    WordsPass();
    CreateRows(cfg, s, Ask(id, user, at));
    hide ReachesGrant, ReachesRemoval;
    OtherActive(cfg, s, Ask(id, user, at));
    OnlyTheirOwn(s, Ask(id, user, at));
  }

  // An approve that is in time, and whose group call succeeds.
  lemma AllowStep(cfg: Config, s: State, id: string, boss: string, at: Instant, c: Calls)
    requires Keyed(s) && id in s.reqs && s.reqs[id].status == Pending && boss != ""
    requires !Late(s.reqs[id].requestExpiresAt, at) && c.read && c.group == Done
    ensures ReachesGrant(s, Allow(id, boss, at, c))
    ensures var s' := Step(cfg, s, Allow(id, boss, at, c));
            && s'.active == s.active + {s.reqs[id].username}
            && s'.reqs == if c.write then s.reqs[id := ApprovedRow(cfg, s.reqs[id], at, boss, WORDS)] else s.reqs
  {
    hide Step, TrimSpace, Size, Trimmed;
    WordsPass();
    ApproveRows(cfg, s, Allow(id, boss, at, c));
    ApproveActive(cfg, s, Allow(id, boss, at, c));
  }

  lemma EndStep(cfg: Config, s: State, id: string, at: Instant)
    requires Keyed(s) && id in s.reqs && s.reqs[id].status == Approved
    ensures Releases(s, End(id, at))
    ensures var s' := Step(cfg, s, End(id, at));
            s'.active == s.active - {s.reqs[id].username} && s'.reqs == s.reqs[id := ReleasedRow(s.reqs[id], at)]
  {
    hide Step, ReachesGrant;
    ReleaseRows(cfg, s, End(id, at));
    OtherActive(cfg, s, End(id, at));
  }

  // The times of a scenario are in order and have four-digit years.
  predicate Dates(cfg: Config, start: Instant, end: Instant) {
    start <= end && InRange(start) && InRange(end + cfg.requestTTL) && InRange(end + cfg.activeTTL)
  }

  // One request, made at the start.
  lemma AskRun(cfg: Config, start: Instant, id: string, user: string)
    requires Dates(cfg, start, start) && user != ""
    ensures var ops := [Ask(id, user, start)]; var s := Run(cfg, EMPTY, start, ops);
            && IsRun(cfg, EMPTY, start, ops) && EndOf(start, ops) == start
            && s.reqs == map[id := Asked(cfg, id, user, start)] && s.active == {}
            && s == Step(cfg, EMPTY, Ask(id, user, start))
  {
    hide Step;
    AskStep(cfg, EMPTY, id, user, start);
    assert [] + [Ask(id, user, start)] == [Ask(id, user, start)];
    RunSnoc(cfg, EMPTY, start, [], Ask(id, user, start));
  }

  // ----- a stranded member -----

  // The grant's row is not written: the user is a member and no row says so.
  lemma StrandingRun(cfg: Config, start: Instant, id: string, user: string, boss: string) returns (ops: seq<Op>)
    requires Dates(cfg, start, start) && user != "" && boss != ""
    ensures var s := Run(cfg, EMPTY, start, ops);
            && IsRun(cfg, EMPTY, start, ops)
            && user in s.active && !HasGrant(s, user) && !Covered(s)
            && !NeverStrands(cfg, EMPTY, ops)
  {
    hide Step, ReachesGrant;
    var ask, allow := Ask(id, user, start), Allow(id, boss, start, Fine(start).(write := false));
    ops := [ask] + [allow];
    AskRun(cfg, start, id, user);
    var s1 := Run(cfg, EMPTY, start, [ask]);
    AllowStep(cfg, s1, id, boss, start, allow.c);
    RunSnoc(cfg, EMPTY, start, [ask], allow);
    assert Strands(s1, allow);
    assert ops[1..] == [allow];
    assert !NeverStrands(cfg, s1, [allow]);
  }

  // ----- two grants of one user -----

  // A user with two grants releases one: the other stays approved, and the user is no member.
  lemma TwoGrantsRun(cfg: Config, start: Instant, a: string, b: string, user: string, boss: string) returns (ops: seq<Op>)
    requires Dates(cfg, start, start) && user != "" && boss != "" && a != b
    ensures var s := Run(cfg, EMPTY, start, ops);
            && IsRun(cfg, EMPTY, start, ops) && (forall i :: 0 <= i < |ops| ==> FaultFree(ops[i]))
            && Holds(s, b, user) && user !in s.active && !Mirrored(s)
            && ops != [] && EndsOneOfTwo(Run(cfg, EMPTY, start, ops[..|ops| - 1]), ops[|ops| - 1])
  {
    hide Step, ReachesGrant;
    var two := TwoAsked(cfg, start, a, b, user);
    var allowA, allowB, end := Allow(a, boss, start, Fine(start)), Allow(b, boss, start, Fine(start)), End(a, start);
    var s2 := Run(cfg, EMPTY, start, two);
    RunSnoc(cfg, EMPTY, start, two, allowA);
    AllowStep(cfg, s2, a, boss, start, Fine(start));
    var s3 := Run(cfg, EMPTY, start, two + [allowA]);
    RunSnoc(cfg, EMPTY, start, two + [allowA], allowB);
    AllowStep(cfg, s3, b, boss, start, Fine(start));
    var before := two + [allowA] + [allowB];
    var s4 := Run(cfg, EMPTY, start, before);
    RunSnoc(cfg, EMPTY, start, before, end);
    EndStep(cfg, s4, a, start);
    ops := before + [end];
    assert ops[..|ops| - 1] == before;
    assert Holds(s4, b, user);
    assert Holds(Run(cfg, EMPTY, start, ops), b, user);
  }

  lemma TwoAsked(cfg: Config, start: Instant, a: string, b: string, user: string) returns (ops: seq<Op>)
    requires Dates(cfg, start, start) && user != "" && a != b
    ensures ops == [Ask(a, user, start)] + [Ask(b, user, start)]
    ensures IsRun(cfg, EMPTY, start, ops) && EndOf(start, ops) == start
    ensures var s := Run(cfg, EMPTY, start, ops);
            s.reqs == map[a := Asked(cfg, a, user, start), b := Asked(cfg, b, user, start)] && s.active == {}
  {
    hide Step;
    var askA, askB := Ask(a, user, start), Ask(b, user, start);
    ops := [askA] + [askB];
    AskRun(cfg, start, a, user);
    var s1 := Run(cfg, EMPTY, start, [askA]);
    AskStep(cfg, s1, b, user, start);
    RunSnoc(cfg, EMPTY, start, [askA], askB);
  }

  // ----- a log that runs ahead -----

  // A late approve whose row write fails: the request stays pending, and the log says it expired.
  lemma UnwrittenExpiryRun(cfg: Config, start: Instant, id: string, user: string, boss: string) returns (ops: seq<Op>)
    requires Dates(cfg, start, start + cfg.requestTTL + 1) && user != "" && boss != ""
    ensures var s := Run(cfg, EMPTY, start, ops);
            && IsRun(cfg, EMPTY, start, ops)
            && StatusOf(s, id) == Some(Pending)
            && id in Replay(s.log) && Replay(s.log)[id] == Expired
            && !Faithful(s) && !RecordedThroughout(cfg, EMPTY, ops)
  {
    hide Step, Replay, Faithful, Recorded, RecordedThroughout, Run, IsRun, EndOf;
    var late := start + cfg.requestTTL + 1;
    var ask, allow := Ask(id, user, start), Allow(id, boss, late, Fine(late).(write := false));
    ops := [ask] + [allow];
    AskRun(cfg, start, id, user);
    var s1 := Run(cfg, EMPTY, start, [ask]);
    RunSnoc(cfg, EMPTY, start, [ask], allow);
    UnwrittenExpiry(cfg, s1, id, boss, late);
    RecordedSecond(cfg, EMPTY, ask, allow);
  }

  lemma UnwrittenExpiry(cfg: Config, s: State, id: string, boss: string, at: Instant)
    requires Keyed(s) && id in s.reqs && s.reqs[id].status == Pending && boss != "" && Late(s.reqs[id].requestExpiresAt, at)
    ensures var allow := Allow(id, boss, at, Fine(at).(write := false)); var s' := Step(cfg, s, allow);
            && !Recorded(s, allow) && StatusOf(s', id) == Some(Pending)
            && id in Replay(s'.log) && Replay(s'.log)[id] == Expired && !Faithful(s')
  {
    hide Step, Replay, Faithful, Recorded, Appended, Numbered, ExpiresLate, Late;
    var allow := Allow(id, boss, at, Fine(at).(write := false));
    LateStep(cfg, s, id, boss, at, allow.c);
    ReplayAppended(s.log, Event(RequestExpired, "system", s.reqs[id], "expired before approve", false));
    NotFaithful(Step(cfg, s, allow), id);
    NotRecorded(s, allow);
  }

  lemma RecordedSecond(cfg: Config, s: State, a: Op, b: Op)
    ensures RecordedThroughout(cfg, s, [a] + [b]) ==> Recorded(Step(cfg, s, a), b)
  {
    hide Step, Recorded;
    assert ([a] + [b])[1..] == [b];
    assert RecordedThroughout(cfg, Step(cfg, s, a), [b]) ==> Recorded(Step(cfg, s, a), b);
  }

  lemma NotFaithful(s: State, id: string)
    requires id in s.reqs && id in Replay(s.log) && Replay(s.log)[id] != s.reqs[id].status
    ensures !Faithful(s)
  {
    hide Replay;
    assert Statuses(s.reqs)[id] == s.reqs[id].status;
  }

  lemma NotRecorded(s: State, op: Op)
    requires ExpiresLate(s, op) && op.c.audit && !op.c.write
    ensures !Recorded(s, op)
  {}

  lemma LateStep(cfg: Config, s: State, id: string, boss: string, at: Instant, c: Calls)
    requires Keyed(s) && id in s.reqs && s.reqs[id].status == Pending && boss != ""
    requires Late(s.reqs[id].requestExpiresAt, at) && c.read && c.audit && !c.write
    ensures ExpiresLate(s, Allow(id, boss, at, c))
    ensures var s' := Step(cfg, s, Allow(id, boss, at, c));
            s'.reqs == s.reqs && s'.log == Appended(s.log, Event(RequestExpired, "system", s.reqs[id], "expired before approve", false))
  {
    hide Step, TrimSpace, Size, Trimmed, Appended;
    WordsPass();
    ApproveCases(cfg, s, Allow(id, boss, at, c));
  }

  // ----- deadlines inside one second -----

  // A deadline on a whole second is due at that instant and from the next second on, but not between.
  lemma DueOnTheSecond(d: Instant, now: Instant)
    requires InRange(d) && InRange(now) && d % SECOND == 0 && now < d + SECOND
    ensures Due(d, now) <==> now == d
  {
    TextOrderIsTimeOrder(d, now);
    if d < now {
      assert now / SECOND == d / SECOND && now % SECOND == now - d;
      assert Fraction(0) == "" && Fraction(now % SECOND) != "";
      assert Timestamp.Reversed(d, now);
    }
  }

  // ----- a pass that a restart repeats too soon -----

  // One pass runs at the request's deadline, and the pass after the restart runs inside the same
  // second. Without the first pass the second would have kept the request pending.
  lemma TooSoonRun(cfg: Config, start: Instant, id: string, user: string, now: Instant)
    requires Dates(cfg, start, start) && user != "" && InRange(now)
    requires (start + cfg.requestTTL) % SECOND == 0 && start + cfg.requestTTL < now < start + cfg.requestTTL + SECOND
    ensures var n := start + cfg.requestTTL;
            var whole, twice := [Ask(id, user, start), Check(id, now)], [Ask(id, user, start), Check(id, n), Check(id, now)];
            && IsRun(cfg, EMPTY, start, whole) && IsRun(cfg, EMPTY, start, twice)
            && (forall op :: op in twice ==> FaultFree(op))
            && StatusOf(Run(cfg, EMPTY, start, whole), id) == Some(Pending)
            && StatusOf(Run(cfg, EMPTY, start, twice), id) == Some(Expired)
  {
    hide *;
    var n := start + cfg.requestTTL;
    assert InRange(n) by { StartInRange(cfg, start); }
    var ask, first, last := Ask(id, user, start), Check(id, n), Check(id, now);
    var s1 := AskedAlone(cfg, start, id, user);
    PassesDiffer(cfg, s1, start, id, n, now);
    RunSnoc(cfg, EMPTY, start, [ask], last);
    RunSnoc(cfg, EMPTY, start, [ask], first);
    RunSnoc(cfg, EMPTY, start, [ask] + [first], last);
    assert [ask] + [last] == [ask, last] && [ask] + [first] + [last] == [ask, first, last];
    FineIsFaultFree(id, user, start, n, now);
    CheckIsWhen(id, n, start);
  }

  lemma StartInRange(cfg: Config, start: Instant)
    requires Dates(cfg, start, start)
    ensures InRange(start + cfg.requestTTL)
  {}

  lemma CheckIsWhen(id: string, n: Instant, clock: Instant)
    ensures When(Check(id, n), clock) == n
  {}

  lemma AskedAlone(cfg: Config, start: Instant, id: string, user: string) returns (s: State)
    requires Dates(cfg, start, start) && user != ""
    ensures s == Run(cfg, EMPTY, start, [Ask(id, user, start)])
    ensures IsRun(cfg, EMPTY, start, [Ask(id, user, start)]) && EndOf(start, [Ask(id, user, start)]) == start
    ensures Keyed(s) && s.reqs.Keys == {id} && s.reqs[id].status == Pending && s.reqs[id].requestExpiresAt == start + cfg.requestTTL
  {
    hide Step;
    AskRun(cfg, start, id, user);
    s := Run(cfg, EMPTY, start, [Ask(id, user, start)]);
  }

  lemma PassesDiffer(cfg: Config, s: State, clock: Instant, id: string, n: Instant, now: Instant)
    requires Keyed(s) && s.reqs.Keys == {id} && s.reqs[id].status == Pending && s.reqs[id].requestExpiresAt == n
    requires clock <= n && InRange(n) && InRange(now) && n % SECOND == 0 && n < now < n + SECOND
    ensures var first, last := Check(id, n), Check(id, now);
            && Admissible(cfg, s, clock, first) && Admissible(cfg, s, clock, last)
            && Admissible(cfg, Step(cfg, s, first), n, last)
            && StatusOf(Step(cfg, s, last), id) == Some(Pending)
            && StatusOf(Step(cfg, Step(cfg, s, first), last), id) == Some(Expired)
  {
    hide Step, Admissible, Reconcile, Format, FaultlessPass, PassFits, Keyed;
    var first, last := Check(id, n), Check(id, now);
    DueOnTheSecond(n, now);
    PassOnOne(cfg, s, clock, id, n);
    PassOnOne(cfg, s, clock, id, now);
    PassOnOne(cfg, Step(cfg, s, first), n, id, now);
    Recovery.RecoveryNeedsTextOrder(cfg, s, id, n, now, first.pass, last.pass);
  }

  lemma FineIsFaultFree(id: string, user: string, start: Instant, n: Instant, now: Instant)
    ensures FaultFree(Ask(id, user, start)) && FaultFree(Check(id, n)) && FaultFree(Check(id, now))
  {}

  // A pass over a table of one row.
  lemma PassOnOne(cfg: Config, s: State, clock: Instant, id: string, now: Instant)
    requires s.reqs.Keys == {id} && clock <= now && InRange(now)
    ensures Admissible(cfg, s, clock, Check(id, now)) && PassFits(s, Check(id, now).pass)
    ensures FaultlessPass(Check(id, now).pass, s.reqs)
    ensures Step(cfg, s, Check(id, now)) == Reconcile(cfg, s, Check(id, now).pass) && Step(cfg, s, Check(id, now)).reqs.Keys == {id}
  {
    hide Reconcile;
    assert PassFits(s, Check(id, now).pass);
  }

  // ----- the time bound is attained -----

  // The next pass, `gap` later at most, at `end` at most, and not at `d`.
  function NextTick(now: Instant, end: Instant, gap: nat, d: Instant): (next: Instant)
    requires gap >= 2 && now < end && end != d
    ensures now < next <= end && next <= now + gap && next != d
  {
    var next := if now + gap < end then now + gap else end;
    if next == d then d - 1 else next
  }

  function Quiet(id: string, now: Instant, end: Instant, gap: nat, d: Instant): seq<Op>
    requires gap >= 2 && now <= end && end != d
    decreases end - now
  {
    if now == end then []
    else var next := NextTick(now, end, gap, d); [Check(id, next)] + Quiet(id, next, end, gap, d)
  }

  // The one row of the table is approved until `d`.
  predicate OneGrant(s: State, id: string, d: Instant) {
    && id in s.reqs && s.reqs == map[id := s.reqs[id]] && s.reqs[id].id == id
    && s.reqs[id].status == Approved && s.reqs[id].activeExpiresAt == Some(d)
  }

  lemma QuietStep(cfg: Config, s: State, id: string, now: Instant, next: Instant, d: Instant)
    requires OneGrant(s, id, d) && InRange(d) && d % SECOND == 0
    requires now <= next < d + SECOND && next != d && InRange(next)
    ensures Step(cfg, s, Check(id, next)) == s
    ensures Admissible(cfg, s, now, Check(id, next)) && FaultFree(Check(id, next))
  {
    hide Reconcile, Due;
    DueOnTheSecond(d, next);
    var p := Check(id, next).pass;
    assert PassFits(s, p);
    assert OverdueIds(s.reqs, next) == {};
    SettledIsIdle(cfg, s, p);
  }

  // Passes that avoid `d` leave the row alone up to a nanosecond before the next second.
  lemma {:induction false} QuietRun(cfg: Config, s: State, id: string, now: Instant, end: Instant, gap: nat, d: Instant)
    requires OneGrant(s, id, d) && InRange(d) && d % SECOND == 0 && InRange(now) && InRange(end)
    requires gap >= 2 && now <= end < d + SECOND && end != d
    ensures var ops := Quiet(id, now, end, gap, d);
            && IsRun(cfg, s, now, ops) && Run(cfg, s, now, ops) == s && EndOf(now, ops) == end
            && LastPass(now, ops) == end && Paced(now, now, gap, ops)
            && forall i :: 0 <= i < |ops| ==> FaultFree(ops[i])
    decreases end - now
  {
    hide Step, Admissible, FaultFree, OneGrant;
    if now < end {
      var next := NextTick(now, end, gap, d);
      var rest := Quiet(id, next, end, gap, d);
      QuietStep(cfg, s, id, now, next, d);
      QuietRun(cfg, s, id, next, end, gap, d);
      var ops := [Check(id, next)] + rest;
      assert Quiet(id, now, end, gap, d) == ops && ops[1..] == rest;
    }
  }

  lemma {:induction false} PacedJoined(last: Instant, clock: Instant, gap: nat, a: seq<Op>, b: seq<Op>)
    ensures Paced(last, clock, gap, a + b) <==> Paced(last, clock, gap, a) && Paced(LastPass(last, a), EndOf(clock, a), gap, b)
    ensures LastPass(last, a + b) == LastPass(LastPass(last, a), b)
    decreases |a|
  {
    hide When;
    if a == [] {
      assert a + b == b;
    } else {
      assert (a + b)[0] == a[0] && (a + b)[1..] == a[1..] + b;
      PacedJoined(if a[0].ReconcileOp? then a[0].pass.now else last, When(a[0], clock), gap, a[1..], b);
    }
  }

  lemma PacedOne(last: Instant, clock: Instant, gap: nat, op: Op)
    ensures Paced(last, clock, gap, [op]) <==> When(op, clock) <= last + gap
    ensures LastPass(last, [op]) == if op.ReconcileOp? then op.pass.now else last
  {
    hide When;
    assert [op][1..] == [];
  }

  // A request granted at once.
  lemma GrantRun(cfg: Config, start: Instant, gap: nat, id: string, user: string, boss: string) returns (ops: seq<Op>)
    requires Dates(cfg, start, start) && user != "" && boss != ""
    ensures var s := Run(cfg, EMPTY, start, ops);
            && IsRun(cfg, EMPTY, start, ops) && EndOf(start, ops) == start && LastPass(start, ops) == start
            && Paced(start, start, gap, ops) && (forall i :: 0 <= i < |ops| ==> FaultFree(ops[i]))
            && OneGrant(s, id, start + cfg.activeTTL) && s.reqs[id].approvedAt == Some(start)
            && s.reqs[id].username == user && user in s.active
  {
    hide Step, ReachesGrant;
    var ask, allow := Ask(id, user, start), Allow(id, boss, start, Fine(start));
    ops := [ask] + [allow];
    AskRun(cfg, start, id, user);
    var s1 := Run(cfg, EMPTY, start, [ask]);
    AllowStep(cfg, s1, id, boss, start, allow.c);
    RunSnoc(cfg, EMPTY, start, [ask], allow);
    PacedOne(start, start, gap, ask);
    PacedOne(start, start, gap, allow);
    PacedJoined(start, start, gap, [ask], [allow]);
  }

  // The bound on elevation is attained, for every gap of two nanoseconds or more and every TTL: a
  // fault-free run whose passes start at most `gap` apart, with a member at the last moment
  // before ActiveTTL + gap + 1s after the only approval there is.
  lemma BoundIsAttained(cfg: Config, start: Instant, gap: nat, id: string, user: string, boss: string)
    returns (ops: seq<Op>, t: Instant)
    requires gap >= 2 && user != "" && boss != "" && Dates(cfg, start, start)
    requires (start + cfg.activeTTL) % SECOND == 0 && InRange(start + cfg.activeTTL + SECOND - 1)
    ensures IsRun(cfg, EMPTY, start, ops) && Paced(start, start, gap, ops)
    ensures forall i :: 0 <= i < |ops| ==> FaultFree(ops[i])
    ensures Between(start, ops, gap, |ops|, t)
    ensures var s := Run(cfg, EMPTY, start, ops);
            && user in s.active && Holds(s, id, user) && s.reqs.Keys == {id}
            && s.reqs[id].approvedAt == Some(start)
    ensures t == start + cfg.activeTTL + gap + SECOND - 1
  {
    var d := start + cfg.activeTTL;
    var end := d + SECOND - 1;
    hide Step, When, FaultFree;
    var first := GrantRun(cfg, start, gap, id, user, boss);
    var s := Run(cfg, EMPTY, start, first);
    var rest := Quiet(id, start, end, gap, d);
    QuietRun(cfg, s, id, start, end, gap, d);
    ops, t := first + rest, end + gap;
    RunJoined(cfg, EMPTY, start, first, rest);
    PacedJoined(start, start, gap, first, rest);
    assert ops[..|ops|] == ops;
  }
}
