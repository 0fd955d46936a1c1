/**
 The store: a table of rows whose times are text, the audit table and the notification
 marks. `up` and similar flags are the database's answer to one call.
 */
module Storage {
  import opened Wrappers
  import opened TextOrder
  import opened Timestamp
  import opened Deadlines
  import opened Requests
  import opened AuditView

  datatype Row = Row(
    id: string,
    username: string,
    justification: string,
    status: Status,
    createdAt: string,
    requestExpiresAt: string,
    approvedAt: Option<string>,
    approvedBy: Option<string>,
    activeExpiresAt: Option<string>,
    releasedAt: Option<string>,
    approvalNotes: string)

  // ----- columns -----

  function NullTime(t: Option<Instant>): Option<string>
    requires OptionInRange(t)
  {
    if t.None? then None else Some(Format(t.value))
  }

  function NullStr(s: string): Option<string> {
    if s == "" then None else Some(s)
  }

  // A NULL, an empty text and an unreadable text all read as no time.
  function ParseNullTime(s: Option<string>): Option<Instant> {
    if s.None? || s.value == "" then None else Parse(s.value)
  }

  // ----- rows -----

  function Insert(r: Request): Row
    requires Storable(r)
  {
    Row(r.id, r.username, r.justification, r.status, Format(r.createdAt), Format(r.requestExpiresAt),
        NullTime(r.approvedAt), NullStr(r.approvedBy), NullTime(r.activeExpiresAt), NullTime(r.releasedAt),
        r.approvalNotes)
  }

  function Overwrite(row: Row, r: Request): Row
    requires Storable(r)
  {
    row.(status := r.status, approvedAt := NullTime(r.approvedAt), approvedBy := NullStr(r.approvedBy),
         activeExpiresAt := NullTime(r.activeExpiresAt), releasedAt := NullTime(r.releasedAt),
         approvalNotes := r.approvalNotes)
  }

  function Scan(row: Row): Result<Request> {
    var created, expires := Parse(row.createdAt), Parse(row.requestExpiresAt);
    if created.None? || expires.None? then Failure
    else Success(Request(row.id, row.username, row.justification, row.status, created.value, expires.value,
                         ParseNullTime(row.approvedAt),
                         if row.approvedBy.None? then "" else row.approvedBy.value,
                         row.approvalNotes,
                         ParseNullTime(row.activeExpiresAt), ParseNullTime(row.releasedAt)))
  }

  predicate SameIdentity(r: Request, q: Request) {
    && r.id == q.id && r.username == q.username && r.justification == q.justification
    && r.createdAt == q.createdAt && r.requestExpiresAt == q.requestExpiresAt
  }

  lemma NullTimeRoundTrip(t: Option<Instant>)
    requires OptionInRange(t)
    ensures ParseNullTime(NullTime(t)) == t
  {
    if t.Some? {
      ParseOfFormat(t.value);
    }
  }

  // Scanning what Create wrote gives back the request.
  lemma ScanOfInsert(r: Request)
    requires Storable(r)
    ensures Scan(Insert(r)) == Success(r)
  {
    ParseOfFormat(r.createdAt);
    ParseOfFormat(r.requestExpiresAt);
    NullTimeRoundTrip(r.approvedAt);
    NullTimeRoundTrip(r.activeExpiresAt);
    NullTimeRoundTrip(r.releasedAt);
  }

  // The request an update leaves: new status and times under the identity columns the row had.
  function Merged(was: Request, r: Request): Request {
    r.(id := was.id, username := was.username, justification := was.justification,
       createdAt := was.createdAt, requestExpiresAt := was.requestExpiresAt)
  }

  // Scanning what Update wrote over the row of `was` gives back the request with the
  // identity columns the row had.
  lemma ScanOfOverwrite(was: Request, r: Request)
    requires Storable(was) && Storable(r)
    ensures Overwrite(Insert(was), r) == Insert(Merged(was, r))
    ensures Scan(Overwrite(Insert(was), r)) == Success(Merged(was, r))
    ensures SameIdentity(was, r) ==> Merged(was, r) == r
  {
    ScanOfInsert(Merged(was, r));
  }

  // ----- tables -----

  // The row scans to an in-range request kept under its own id, and is what inserting that request writes.
  predicate RowSound(id: string, row: Row) {
    && Scan(row).Success?
    && var r := Scan(row).value;
       Storable(r) && r.id == id && row == Insert(r)
  }

  lemma InsertIsSound(r: Request)
    requires Storable(r)
    ensures RowSound(r.id, Insert(r)) && Scan(Insert(r)) == Success(r)
  {
    ScanOfInsert(r);
  }

  predicate Sound(rows: map<string, Row>) {
    forall id :: id in rows ==> RowSound(id, rows[id])
  }

  // The requests a sound table stands for.
  function Decoded(rows: map<string, Row>): (reqs: map<string, Request>)
    requires Sound(rows)
    ensures reqs.Keys == rows.Keys
  {
    hide Scan, Insert;
    map id | id in rows :: assert RowSound(id, rows[id]); Scan(rows[id]).value
  }

  lemma DecodedRow(rows: map<string, Row>, id: string)
    requires Sound(rows) && id in rows
    ensures var r := Decoded(rows)[id];
            Storable(r) && r.id == id && rows[id] == Insert(r) && Scan(rows[id]) == Success(r)
  {
    assert RowSound(id, rows[id]);
  }

  lemma SoundAfterWrite(rows: map<string, Row>, r: Request)
    requires Sound(rows) && Storable(r)
    ensures Sound(rows[r.id := Insert(r)])
    ensures Decoded(rows[r.id := Insert(r)]) == Decoded(rows)[r.id := r]
  {
    hide Scan, Insert;
    InsertIsSound(r);
  }

  // ----- the expiry query -----

  datatype Column = RequestExpiresAt | ActiveExpiresAt

  function ColumnText(row: Row, col: Column): Option<string> {
    match col
    case RequestExpiresAt => Some(row.requestExpiresAt)
    case ActiveExpiresAt => row.activeExpiresAt
  }

  predicate RowMatches(row: Row, status: Status, col: Column, now: Instant)
    requires InRange(now)
  {
    row.status == status && ColumnText(row, col).Some? && Leq(ColumnText(row, col).value, Format(now))
  }

  predicate Matches(r: Request, status: Status, col: Column, now: Instant) {
    && r.status == status
    && match col
       case RequestExpiresAt => Due(r.requestExpiresAt, now)
       case ActiveExpiresAt => r.activeExpiresAt.Some? && Due(r.activeExpiresAt.value, now)
  }

  // `plan` is the order in which the database happens to return rows: any order of all the keys.
  ghost predicate Enumerates(plan: seq<string>, keys: set<string>) {
    && (forall i, j :: 0 <= i < j < |plan| ==> plan[i] != plan[j])
    && (forall id :: id in plan <==> id in keys)
  }

  // What the query returns on raw rows: one row that fails to scan fails the whole query.
  function QueryRows(rows: map<string, Row>, plan: seq<string>, status: Status, col: Column, now: Instant): Result<seq<Request>>
    requires InRange(now) && forall id :: id in plan ==> id in rows
  {
    if plan == [] then Success([])
    else
      var before := QueryRows(rows, plan[..|plan| - 1], status, col, now);
      var row := rows[plan[|plan| - 1]];
      if before.Failure? || !RowMatches(row, status, col, now) then before
      else if Scan(row).Failure? then Failure
      else Success(before.value + [Scan(row).value])
  }

  // The same on requests.
  function Select(reqs: map<string, Request>, plan: seq<string>, status: Status, col: Column, now: Instant): (batch: seq<Request>)
    requires forall id :: id in plan ==> id in reqs
  {
    if plan == [] then []
    else
      var before := Select(reqs, plan[..|plan| - 1], status, col, now);
      var r := reqs[plan[|plan| - 1]];
      if Matches(r, status, col, now) then before + [r] else before
  }

  lemma RowMatchesIsMatches(r: Request, status: Status, col: Column, now: Instant)
    requires Storable(r) && InRange(now)
    ensures RowMatches(Insert(r), status, col, now) <==> Matches(r, status, col, now)
  {}

  // On a sound table the query never fails, and reads the matching requests in plan order.
  lemma {:induction false} QueryOfSound(rows: map<string, Row>, plan: seq<string>, status: Status, col: Column, now: Instant)
    requires Sound(rows) && InRange(now) && forall id :: id in plan ==> id in rows
    ensures QueryRows(rows, plan, status, col, now) == Success(Select(Decoded(rows), plan, status, col, now))
  {
    hide Scan, Insert, RowMatches, Matches, RowSound;
    if plan != [] {
      QueryOfSound(rows, plan[..|plan| - 1], status, col, now);
      var id := plan[|plan| - 1];
      DecodedRow(rows, id);
      RowMatchesIsMatches(Decoded(rows)[id], status, col, now);
    }
  }

  // The batch holds exactly the matching requests, each once.
  lemma {:induction false} SelectExact(reqs: map<string, Request>, plan: seq<string>, status: Status, col: Column, now: Instant)
    requires forall id :: id in plan ==> id in reqs && reqs[id].id == id
    requires forall i, j :: 0 <= i < j < |plan| ==> plan[i] != plan[j]
    ensures var batch := Select(reqs, plan, status, col, now);
            && (forall r :: r in batch <==> r.id in plan && reqs[r.id] == r && Matches(r, status, col, now))
            && (forall i, j :: 0 <= i < j < |batch| ==> batch[i].id != batch[j].id)
  {
    hide Matches;
    if plan != [] {
      var init, last := plan[..|plan| - 1], plan[|plan| - 1];
      assert plan == init + [last] && last !in init;
      SelectExact(reqs, init, status, col, now);
    }
  }

  predicate EntriesSound(events: seq<AuditRow>) {
    forall row :: row in events ==> ScanEntry(row).Success?
  }

  class Store {
    var rows: map<string, Row>
    var events: seq<AuditRow>
    var marks: set<Mark>

    constructor ()
      ensures Valid() && Contents() == map[] && Log() == [] && marks == {}
    {
      rows, events, marks := map[], [], {};
    }

    ghost predicate Valid()
      reads this
    {
      Sound(rows) && Numbered(Log()) && EntriesSound(events)
    }

    function Log(): seq<AuditEvent>
      reads this
    {
      Events(events)
    }

    ghost function Contents(): map<string, Request>
      reads this
      requires Valid()
    {
      Decoded(rows)
    }

    method Create(r: Request, up: bool) returns (ok: bool)
      requires Valid() && Storable(r)
      modifies this`rows
      ensures Valid() && ok == (up && r.id !in old(Contents()))
      ensures Contents() == if ok then old(Contents())[r.id := r] else old(Contents())
    {
      hide Scan, Insert, RowSound;
      ok := up && r.id !in rows;
      if ok {
        SoundAfterWrite(rows, r);
        rows := rows[r.id := Insert(r)];
      }
    }

    method Get(id: string, up: bool) returns (found: Result<Request>)
      requires Valid()
      ensures found == if up && id in Contents() then Success(Contents()[id]) else Failure
    {
      if up && id in rows {
        found := Scan(rows[id]);
        DecodedRow(rows, id);
      } else {
        found := Failure;
      }
    }

    // Keyed by id only: whatever the row holds now, its status and times are overwritten, and its
    // identity columns stay.
    method Update(r: Request, up: bool) returns (ok: bool)
      requires Valid() && Storable(r)
      modifies this`rows
      ensures Valid() && ok == (up && r.id in old(Contents()))
      ensures Contents() == if ok then old(Contents())[r.id := Merged(old(Contents())[r.id], r)] else old(Contents())
      ensures ok ==> SameIdentity(old(Contents())[r.id], Contents()[r.id])
      ensures ok ==> var now := Contents()[r.id];
                     && now.status == r.status && now.approvedAt == r.approvedAt && now.approvedBy == r.approvedBy
                     && now.activeExpiresAt == r.activeExpiresAt && now.releasedAt == r.releasedAt && now.approvalNotes == r.approvalNotes
      ensures ok && SameIdentity(old(Contents())[r.id], r) ==> Contents() == old(Contents())[r.id := r]
    {
      hide Scan, Insert, Overwrite, RowSound;
      ok := up && r.id in rows;
      if ok {
        ghost var was := Contents()[r.id];
        DecodedRow(rows, r.id);
        ScanOfOverwrite(was, r);
        SoundAfterWrite(rows, Merged(was, r));
        rows := rows[r.id := Overwrite(rows[r.id], r)];
      }
    }

    method ByStatusBefore(status: Status, col: Column, now: Instant, plan: seq<string>, up: bool)
      returns (found: Result<seq<Request>>)
      requires InRange(now) && forall id :: id in plan ==> id in rows
      ensures !up ==> found == Failure
      ensures up ==> found == QueryRows(rows, plan, status, col, now)
      ensures Valid() && up ==> found == Success(Select(Contents(), plan, status, col, now))
    {
      hide Scan, Insert, RowMatches, Matches, RowSound, Select;
      if Valid() {
        QueryOfSound(rows, plan, status, col, now);
      }
      if !up {
        return Failure;
      }
      var out: seq<Request> := [];
      var i := 0;
      while i < |plan|
        invariant 0 <= i <= |plan|
        invariant QueryRows(rows, plan[..i], status, col, now) == Success(out)
      {
        var row := rows[plan[i]];
        assert plan[..i + 1][..i] == plan[..i];
        if RowMatches(row, status, col, now) {
          var scanned := Scan(row);
          if scanned.Failure? {
            QueryFailsForGood(rows, plan, i + 1, status, col, now);
            return Failure;
          }
          out := out + [scanned.value];
        }
        i := i + 1;
      }
      assert plan[..i] == plan;
      found := Success(out);
    }

    // An event without a time gets the clock's. Ids follow each other.
    method AppendAudit(e: AuditEntry, now: Stamp, up: bool) returns (ok: bool)
      requires Valid() && InRange(e.at)
      modifies this`events
      ensures Valid() && ok == up && Log() == if up then Appended(old(Log()), e.event) else old(Log())
      ensures !up ==> events == old(events)
      ensures up ==> events != [] && events == old(events) + [events[|events| - 1]]
      ensures up ==> ScanEntry(events[|events| - 1]) ==
                     Success(Timed(Appended(old(Log()), e.event)[|old(events)|], if e.at == UNSET then now else e.at))
    {
      hide Sound, Parse, Format, InRange;
      ok := up;
      if up {
        var at := if e.at == UNSET then now else e.at;
        ParseOfFormat(at);
        var row := Timed(e.event.(id := |events| + 1), Format(at));
        assert Events(events + [row]) == Events(events) + [row.event];
        events := events + [row];
      }
    }

    method ListAudit(f: AuditFilter) returns (found: Result<seq<AuditEntry>>)
      requires Valid()
      ensures found.Success? && Events(found.value) == View(Log(), f) && Reports(Log(), f, Events(found.value))
    {
      ListingReports(events, f);
      found := AuditView.ListAudit(events, f);
    }

    method TryMarkNotified(mark: Mark, up: bool) returns (first: Result<bool>)
      modifies this`marks
      ensures first == if up then Success(mark !in old(marks)) else Failure
      ensures marks == if up then old(marks) + {mark} else old(marks)
    {
      if up {
        first := Success(mark !in marks);
        marks := marks + {mark};
      } else {
        first := Failure;
      }
    }
  }

  lemma {:induction false} QueryFailsForGood(rows: map<string, Row>, plan: seq<string>, n: nat, status: Status, col: Column, now: Instant)
    requires InRange(now) && n <= |plan| && forall id :: id in plan ==> id in rows
    requires QueryRows(rows, plan[..n], status, col, now).Failure?
    ensures QueryRows(rows, plan, status, col, now).Failure?
    decreases |plan|
  {
    if n < |plan| {
      assert plan[..|plan| - 1][..n] == plan[..n];
      QueryFailsForGood(rows, plan[..|plan| - 1], n, status, col, now);
    } else {
      assert plan[..n] == plan;
    }
  }
}
