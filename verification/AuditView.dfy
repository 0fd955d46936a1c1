/** The append-only audit log and its filtered, newest-first, bounded view. */
module AuditView {
  import opened Wrappers
  import opened Requests
  import Timestamp

  datatype AuditFilter = AuditFilter(requestId: string, actor: string, breakGlass: Option<bool>, limit: int)

  // Ids are handed out in order, from 1.
  predicate Numbered(log: seq<AuditEvent>) {
    forall i :: 0 <= i < |log| ==> log[i].id == i + 1
  }

  function Appended(log: seq<AuditEvent>, e: AuditEvent): seq<AuditEvent> {
    log + [e.(id := |log| + 1)]
  }

  function Clamped(limit: int): (n: nat)
    ensures 1 <= n <= 500
  {
    if limit <= 0 || limit > 500 then 100 else limit
  }

  predicate Accepts(f: AuditFilter, e: AuditEvent) {
    && (f.requestId != "" ==> e.requestId == f.requestId)
    && (f.actor != "" ==> e.actor == f.actor)
    && (f.breakGlass.Some? ==> e.breakGlass == f.breakGlass.value)
  }

  function Filtered(log: seq<AuditEvent>, f: AuditFilter): seq<AuditEvent> {
    if log == [] then []
    else Filtered(log[..|log| - 1], f) + (if Accepts(f, log[|log| - 1]) then [log[|log| - 1]] else [])
  }

  function Reversed(log: seq<AuditEvent>): (r: seq<AuditEvent>)
    ensures |r| == |log|
  {
    if log == [] then [] else [log[|log| - 1]] + Reversed(log[..|log| - 1])
  }

  function Take(log: seq<AuditEvent>, n: nat): seq<AuditEvent> {
    if n < |log| then log[..n] else log
  }

  // The reference: the first n of the reversed, filtered log.
  function View(log: seq<AuditEvent>, f: AuditFilter): seq<AuditEvent> {
    Take(Reversed(Filtered(log, f)), Clamped(f.limit))
  }

  lemma ReversedSnoc(log: seq<AuditEvent>, e: AuditEvent)
    ensures Reversed(log + [e]) == [e] + Reversed(log)
  {
    assert (log + [e])[..|log|] == log;
  }

  // ----- stored events -----

  // An event with its time: as text where it is stored, as an instant once read back.
  datatype Timed<At> = Timed(event: AuditEvent, at: At)
  type AuditRow = Timed<string>
  type AuditEntry = Timed<Timestamp.Instant>

  function ScanEntry(row: AuditRow): Result<AuditEntry> {
    match Timestamp.Parse(row.at)
    case None => Failure
    case Some(at) => Success(Timed(row.event, at))
  }

  function Events<At>(rows: seq<Timed<At>>): (log: seq<AuditEvent>)
    ensures |log| == |rows|
  {
    seq(|rows|, i requires 0 <= i < |rows| => rows[i].event)
  }

  function Prepended(found: seq<AuditEntry>, rest: Result<seq<AuditEntry>>): Result<seq<AuditEntry>> {
    if rest.Failure? then Failure else Success(found + rest.value)
  }

  // The first `n` accepted rows from the newest down; one that does not scan fails the whole listing.
  function Listing(rows: seq<AuditRow>, f: AuditFilter, n: nat): Result<seq<AuditEntry>> {
    if rows == [] || n == 0 then Success([])
    else
      var init, last := rows[..|rows| - 1], rows[|rows| - 1];
      if !Accepts(f, last.event) then Listing(init, f, n)
      else if ScanEntry(last).Failure? then Failure
      else Prepended([ScanEntry(last).value], Listing(init, f, n - 1))
  }

  // Walks the rows from the newest down, as `ORDER BY id DESC LIMIT n` does, and reads the accepted ones.
  method ListAudit(rows: seq<AuditRow>, f: AuditFilter) returns (out: Result<seq<AuditEntry>>)
    ensures out == Listing(rows, f, Clamped(f.limit))
    ensures Numbered(Events(rows)) && (forall row :: row in rows ==> ScanEntry(row).Success?) ==>
              out.Success? && Reports(Events(rows), f, Events(out.value))
  {
    hide ScanEntry, Accepts, Reports;
    if Numbered(Events(rows)) && forall row :: row in rows ==> ScanEntry(row).Success? {
      ListingReports(rows, f);
    }
    var limit := Clamped(f.limit);
    var found: seq<AuditEntry> := [];
    var i := |rows|;
    assert rows[..i] == rows;
    NothingPrepended(Listing(rows, f, limit));
    while i > 0 && |found| < limit
      invariant 0 <= i <= |rows| && |found| <= limit
      invariant Listing(rows, f, limit) == Prepended(found, Listing(rows[..i], f, limit - |found|))
    {
      i := i - 1;
      assert rows[..i + 1][..i] == rows[..i];
      if Accepts(f, rows[i].event) {
        var scanned := ScanEntry(rows[i]);
        if scanned.Failure? {
          return Failure;
        }
        PrependedTwice(found, [scanned.value], Listing(rows[..i], f, limit - |found| - 1));
        found := found + [scanned.value];
      }
    }
    assert found + [] == found;
    out := Success(found);
  }

  lemma NothingPrepended(rest: Result<seq<AuditEntry>>)
    ensures Prepended([], rest) == rest
  {
    if rest.Success? {
      assert [] + rest.value == rest.value;
    }
  }

  lemma PrependedTwice(a: seq<AuditEntry>, b: seq<AuditEntry>, rest: Result<seq<AuditEntry>>)
    ensures Prepended(a, Prepended(b, rest)) == Prepended(a + b, rest)
  {
    if rest.Success? {
      assert a + (b + rest.value) == (a + b) + rest.value;
    }
  }

  // When every row scans, the listing is the view of the log, each event with the time stored.
  lemma {:induction false} ListingIsView(rows: seq<AuditRow>, f: AuditFilter, n: nat)
    requires forall row :: row in rows ==> ScanEntry(row).Success?
    ensures var out := Listing(rows, f, n);
            && out.Success? && Events(out.value) == Take(Reversed(Filtered(Events(rows), f)), n)
            && forall e :: e in out.value ==> exists row :: row in rows && ScanEntry(row) == Success(e)
  {
    hide ScanEntry, Accepts, Reversed, Filtered;
    if rows == [] || n == 0 {
      assert Filtered(Events(rows), f) == [] || n == 0 by { NothingFiltered(f); }
      assert Events<Timestamp.Instant>([]) == Take(Reversed(Filtered(Events(rows), f)), n) by { NothingFiltered(f); }
    } else {
      var init, last := rows[..|rows| - 1], rows[|rows| - 1];
      assert rows == init + [last] && last in rows;
      OneRowMore(init, last, f);
      if Accepts(f, last.event) {
        ListingIsView(init, f, n - 1);
        OneEntryMore(last, Listing(init, f, n - 1).value, Reversed(Filtered(Events(init), f)), n);
      } else {
        ListingIsView(init, f, n);
      }
    }
  }

  lemma NothingFiltered(f: AuditFilter)
    ensures Filtered([], f) == [] && Reversed([]) == []
  {}

  lemma OneRowMore(init: seq<AuditRow>, last: AuditRow, f: AuditFilter)
    ensures Reversed(Filtered(Events(init + [last]), f)) ==
            (if Accepts(f, last.event) then [last.event] else []) + Reversed(Filtered(Events(init), f))
    ensures !Accepts(f, last.event) ==> Reversed(Filtered(Events(init + [last]), f)) == Reversed(Filtered(Events(init), f))
  {
    var log := Events(init + [last]);
    assert log[..|init|] == Events(init) && log[..|init| + 1] == log;
    FilteredStep(log, f, |init|);
  }

  lemma OneEntryMore(last: AuditRow, out: seq<AuditEntry>, older: seq<AuditEvent>, n: nat)
    requires n > 0 && ScanEntry(last).Success? && Events(out) == Take(older, n - 1)
    ensures Events([ScanEntry(last).value] + out) == Take([last.event] + older, n)
  {
    var e := ScanEntry(last).value;
    assert Events([e] + out) == [last.event] + Events(out);
    assert Take([last.event] + older, n) == [last.event] + Take(older, n - 1);
  }

  // How many accepted rows are newer than row `i`.
  function NewerAccepted(rows: seq<AuditRow>, f: AuditFilter, i: nat): nat
    requires i < |rows|
    decreases |rows|
  {
    if i == |rows| - 1 then 0
    else (if Accepts(f, rows[|rows| - 1].event) then 1 else 0) + NewerAccepted(rows[..|rows| - 1], f, i)
  }

  predicate Spoils(rows: seq<AuditRow>, f: AuditFilter, n: nat, i: nat) {
    i < |rows| && Accepts(f, rows[i].event) && ScanEntry(rows[i]).Failure? && NewerAccepted(rows, f, i) < n
  }

  // The listing fails exactly when an accepted row that does not scan is among the newest n accepted.
  lemma {:induction false} ListingFailsExactly(rows: seq<AuditRow>, f: AuditFilter, n: nat)
    ensures Listing(rows, f, n).Failure? <==> exists i :: Spoils(rows, f, n, i)
  {
    hide ScanEntry, Accepts;
    if rows != [] && n > 0 {
      var init, last := rows[..|rows| - 1], rows[|rows| - 1];
      var m := if Accepts(f, last.event) then n - 1 else n;
      ListingFailsExactly(init, f, m);
      forall i: nat | i < |init| ensures Spoils(rows, f, n, i) <==> Spoils(init, f, m, i) {
        assert init[i] == rows[i];
      }
      assert Spoils(rows, f, n, |init|) <==> Accepts(f, last.event) && ScanEntry(last).Failure?;
    }
  }

  lemma FilteredStep(log: seq<AuditEvent>, f: AuditFilter, i: nat)
    requires i < |log|
    ensures Reversed(Filtered(log[..i + 1], f)) ==
            (if Accepts(f, log[i]) then [log[i]] else []) + Reversed(Filtered(log[..i], f))
  {
    var newer := log[..i + 1];
    assert newer[..|newer| - 1] == log[..i] && newer[|newer| - 1] == log[i];
    if Accepts(f, log[i]) {
      ReversedSnoc(Filtered(log[..i], f), log[i]);
    } else {
      assert Filtered(newer, f) == Filtered(log[..i], f);
    }
  }

  // The filtered log holds exactly the events asked for, in id order.
  lemma {:induction false} FilteredExact(log: seq<AuditEvent>, f: AuditFilter)
    requires Numbered(log)
    ensures forall e :: e in Filtered(log, f) <==>
                          && e in log
                          && (f.requestId == "" || e.requestId == f.requestId)
                          && (f.actor == "" || e.actor == f.actor)
                          && (f.breakGlass == None || f.breakGlass == Some(e.breakGlass))
    ensures forall i, j :: 0 <= i < j < |Filtered(log, f)| ==> Filtered(log, f)[i].id < Filtered(log, f)[j].id
    ensures forall e :: e in log ==> 1 <= e.id <= |log|
  {
    if log != [] {
      var init := log[..|log| - 1];
      assert log == init + [log[|log| - 1]];
      FilteredExact(init, f);
    }
  }

  lemma {:induction false} ReversedAt(log: seq<AuditEvent>, k: nat)
    requires k < |log|
    ensures Reversed(log)[k] == log[|log| - 1 - k]
  {
    if k > 0 {
      ReversedAt(log[..|log| - 1], k - 1);
    }
  }

  // What is asked of an answer: events of the log that have the request, the actor and the break-glass flag
  // asked for, newest first; one that is missing has another, or the answer is full of newer ones. It is
  // full at the limit asked for, if that is from 1 to 500, and otherwise at 100.
  predicate Reports(log: seq<AuditEvent>, f: AuditFilter, v: seq<AuditEvent>) {
    var most := if 1 <= f.limit <= 500 then f.limit else 100;
    && |v| <= most
    && (forall e :: e in v ==>
          && e in log
          && (f.requestId != "" ==> e.requestId == f.requestId)
          && (f.actor != "" ==> e.actor == f.actor)
          && (f.breakGlass.Some? ==> e.breakGlass == f.breakGlass.value))
    && (forall i, j :: 0 <= i < j < |v| ==> v[i].id > v[j].id)
    && (forall e :: e in log && e !in v ==>
          || (f.requestId != "" && e.requestId != f.requestId)
          || (f.actor != "" && e.actor != f.actor)
          || (f.breakGlass.Some? && e.breakGlass != f.breakGlass.value)
          || (|v| == most && forall i :: 0 <= i < |v| ==> v[i].id > e.id))
  }

  // The view is such an answer.
  lemma ViewExact(log: seq<AuditEvent>, f: AuditFilter)
    requires Numbered(log)
    ensures Reports(log, f, View(log, f))
  {
    hide Filtered, Reversed, Numbered, Take;
    FilteredExact(log, f);
    NewestOf(Filtered(log, f), Clamped(f.limit));
  }

  // The first `n` of the reversed events, which are in id order.
  lemma NewestOf(kept: seq<AuditEvent>, n: nat)
    requires forall i, j :: 0 <= i < j < |kept| ==> kept[i].id < kept[j].id
    ensures var v := Take(Reversed(kept), n);
            && |v| <= n
            && (forall e :: e in v ==> e in kept)
            && (forall i, j :: 0 <= i < j < |v| ==> v[i].id > v[j].id)
            && (forall e :: e in kept && e !in v ==> |v| == n && forall i :: 0 <= i < |v| ==> v[i].id > e.id)
  {
    hide Reversed;
    var v := Take(Reversed(kept), n);
    forall k | 0 <= k < |kept| ensures Reversed(kept)[k] == kept[|kept| - 1 - k] {
      ReversedAt(kept, k);
    }
    forall e | e in kept && e !in v ensures |v| == n && forall i :: 0 <= i < |v| ==> v[i].id > e.id {
      var k :| 0 <= k < |kept| && kept[k] == e;
      assert Reversed(kept)[|kept| - 1 - k] == e;
      assert |kept| - 1 - k >= |v|;
    }
  }

  // So is what is listed, on rows that all scan.
  lemma ListingReports(rows: seq<AuditRow>, f: AuditFilter)
    requires Numbered(Events(rows)) && forall row :: row in rows ==> ScanEntry(row).Success?
    ensures var out := Listing(rows, f, Clamped(f.limit));
            out.Success? && Events(out.value) == View(Events(rows), f) && Reports(Events(rows), f, Events(out.value))
  {
    hide Reports, ScanEntry;
    ListingIsView(rows, f, Clamped(f.limit));
    ViewExact(Events(rows), f);
  }

  // Where two answers agree so far, one goes on at least as far as the other, with an event at least as new.
  lemma NotBehind(log: seq<AuditEvent>, f: AuditFilter, v: seq<AuditEvent>, w: seq<AuditEvent>, k: nat)
    requires Reports(log, f, v) && Reports(log, f, w) && k < |v| && k <= |w| && v[..k] == w[..k]
    ensures k < |w| && w[k].id >= v[k].id
  {
    assert v[k] in v;
    if !(k < |w| && w[k].id >= v[k].id) {
      forall j | 0 <= j < |w| ensures w[j] != v[k] {
        if j < k {
          assert w[j] == w[..k][j] == v[..k][j] == v[j];
        }
      }
    }
  }

  lemma {:induction false} SameSoFar(log: seq<AuditEvent>, f: AuditFilter, v: seq<AuditEvent>, w: seq<AuditEvent>, k: nat)
    requires Numbered(log) && Reports(log, f, v) && Reports(log, f, w) && k <= |v|
    ensures k <= |w| && v[..k] == w[..k]
  {
    if k > 0 {
      SameSoFar(log, f, v, w, k - 1);
      NotBehind(log, f, v, w, k - 1);
      NotBehind(log, f, w, v, k - 1);
      assert v[k - 1] in v && w[k - 1] in w;
      assert v[..k] == v[..k - 1] + [v[k - 1]] && w[..k] == w[..k - 1] + [w[k - 1]];
    }
  }

  // There is no other answer.
  lemma ReportsIsUnique(log: seq<AuditEvent>, f: AuditFilter, v: seq<AuditEvent>)
    requires Numbered(log) && Reports(log, f, v)
    ensures v == View(log, f)
  {
    var w := View(log, f);
    ViewExact(log, f);
    SameSoFar(log, f, v, w, |v|);
    SameSoFar(log, f, w, v, |w|);
    assert v[..|v|] == v && w[..|w|] == w;
  }

  // Appending changes a view only by putting the new event first, if accepted, and
  // dropping at most the last one.
  lemma AppendedView(log: seq<AuditEvent>, e: AuditEvent, f: AuditFilter)
    ensures var stored := e.(id := |log| + 1);
            View(Appended(log, e), f) ==
            if Accepts(f, stored) then Take([stored] + View(log, f), Clamped(f.limit)) else View(log, f)
  {
    var stored := e.(id := |log| + 1);
    assert Appended(log, e)[..|log|] == log;
    if Accepts(f, stored) {
      ReversedSnoc(Filtered(log, f), stored);
      var r := Reversed(Filtered(log, f));
      assert Take([stored] + Take(r, Clamped(f.limit)), Clamped(f.limit)) == Take([stored] + r, Clamped(f.limit));
    } else {
      assert Filtered(Appended(log, e), f) == Filtered(log, f);
    }
  }
}
