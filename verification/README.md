# Just-in-time elevation: a verified model

The service grants time-limited membership of one remote group (`admin-active`) on request.
A table of requests (`pending`, `approved`, `expired`, `released`) and that group are kept in step by
three operations: approve, release and the periodic `Reconcile`. They do so with separate store and
group calls, without transactions; `Update` is keyed by id alone; and deadlines are stored and
compared as text. This project models that protocol, the text encoding it rests on, and the smaller
state machines around it (session cookie, login state, token cache, group-id cache, audit log,
notification marks), and proves what they keep.

`dafny verify dfyconfig.toml` checks everything.

## How the model is laid out

* **Text and time.** `TextOrder` is the byte order SQL's `<=` uses on TEXT. `Decimal`, `Calendar` and
  `Timestamp` print and parse the stored form of an instant (a count of nanoseconds), and
  `Deadlines` compares "due by text" with "late by clock". `Text` is what handlers ask of user-supplied text.
* **Store.** `Requests` holds the data types, `Storage` the rows as text and the class `Store` with the
  table, the audit table and the notification marks, `AuditView` the filtered view of the log.
* **Protocol.** `Protocol` says what each operation does to the shared state, as functions of the state and of the
  outcome of every call it makes. `Service` holds the classes whose methods run those calls in the order of the
  source; each method's postcondition equates the whole new state with the `Protocol` function.
  `Runs` strings operations into whole runs, and `Worker` drives the service through them.
* **What is proved of the protocol.** `Sweep` (one pass), `Recovery` (cut passes), `Lifecycle`, `Membership`,
  `AuditReplay` (the log as a history), `Provenance` (whom the log names, and who is behind every row), `Elevation` (the time
  bounds), `Notifications` and `Announcements` (at most what happened is posted, and all of it); and `Scenarios`, runs from an
  empty table that reach the exceptions and the bound.
* **Stepwise level.** `Interleaving` gives every operation a program counter and makes each call one step.
  `StepwiseRows` is what an interleaving does to rows, `Coverage` exactly when it leaves a member unaccounted for,
  `StepwiseElevation` how long an elevation can outlive its deadline in it, `Chronicle` what the log and the
  posts still say, and `StepwiseProvenance` whom the log names. `Atomicity` (rows and members) and `AtomicTurns` (log and posts
  too) tie that level back to `Protocol`; `Atomicity` also holds runs that show what can go wrong.
* **Around it.** `Base64`, `Sessions`, `Login`, `TokenCache`, `GroupClient`.

Outcomes of calls are arguments: a store call succeeds or fails without effect; a group call is `Done`,
`Refused` (failed, no effect) or `Lost` (failed as seen by the caller, but applied). Clock readings, fresh
ids, random tokens and the order in which a query returns its rows are arguments too. A query's row order
is any enumeration of the table, because the expiry query has no `ORDER BY`.

## Assumptions

They are stated where they are used, as `requires` clauses or in `Runs.Admissible` and `Interleaving.Allowed`.

* The clock never runs back between operations; TTLs are not negative; every time handled has a year in 0..9999.
* Request ids and login states are fresh; a login verifier and challenge are issued together.
* Only this service changes `admin-active`. Runs that mention membership start with it covered by
  approved rows, of which an empty table and an empty group are the usual case.
* At the sequential level any call may fail in any operation. Results that need more say exactly what:
  `NeverStrands`, `NeverEndsOneOfTwo` and `RecordedThroughout` are the exact conditions, `WritesGrants`, `OneGrantThroughout`
  and `StoreUp` simpler ones that imply them; `FaultFree` is that no call fails.
* At the stepwise level coverage is characterised for every interleaving whatever, with any failures and restarts
  (`Coverage.InterleavingCoversExactly`). What is said of rows, log and posts assumes `Interleaving.Disjoint`: an approve that is
  not late starts on a row no other operation has in hand, and until it is done no other approve and no pass for expiry starts
  on that row. Everything else may fail and interleave at every call: releases and passes may overlap on one row, and
  operations on different rows of one user always may. The code has no lock or status-guarded `Update` that enforces this;
  `Atomicity.OverlapBreaksCoverage` and `Atomicity.TwoApprovesBreakCoverage` are runs that show what happens without it.
* The stepwise time bound also takes it that an approve writes its row less than ActiveTTL + 1s after it read its clock.

## Where the code and what one might expect differ

* `NotifyOnce` is documented as returning whether a send was attempted (`internal/notify/notify.go:44`). It returns whether the post
  succeeded: an attempt that fails returns false. The model follows the code.
* The messages ask for justifications and notes of "at least 8 characters" (`internal/api/api.go:190`, `:254`); what is counted is bytes
  of UTF-8. The model counts bytes (`Text.Size`).
* Text order is not time order inside one second. `Timestamp.TextOrderIsTimeOrder` gives the exact set of
  pairs that compare the wrong way round.
* Crash recovery is false in general: a pass can expire a request that a later pass, in the same second, would not have selected.
  `Recovery.CrashRecovery` and `Recovery.RecoveryNeedsTextOrder` give the exact condition on the two times.
* Coverage is false when an approve adds the member and does not get its row written: `Membership.RunCoverageExactly` says this
  is the only way while operations do not interleave, and `Scenarios.StrandingRun` is such a run.
* When they do interleave there are four ways, and `Coverage.UncoversExactly` says which: an add applied but reported as failed; a
  grant whose write fails, or lands on a row that is half released; an expiry written over a grant; a restart between the two
  calls of an approve. Each only if nothing else accounts for the member.
* The group does not mirror the approved rows when an operation ends one of several grants of one user:
  `Membership.RunMirrorsExactly` says this is the only way in fault-free runs, and `Scenarios.TwoGrantsRun` is such a run.
* The late branch of approve ignores whether its write succeeded. When the write fails the request stays pending although an
  expiry is logged and notified: `AuditReplay.LateIsFaithful` says exactly when the log stays true, and
  `Scenarios.UnwrittenExpiryRun` is a run in which it does not.
* Two operations that end one grant at the same time both write it. The last write stays, and its time may be the earlier one:
  `StepwiseRows.RowChangesExactly` says exactly when a released row changes, and `Atomicity.LastReleaseStays` is such a run.
* The order of the log is not the order of the table when operations interleave: a release that comes between an approve's
  row and its events logs first, and the log then ends with the request approved. `Chronicle.LogOutOfOrder` is such a run. What survives is what the
  log says in whatever order: `Chronicle.AccountKeptExactly` and `Chronicle.FurthestIsStatus`.
* A request can be announced as ended twice, for two reasons, and an approval can be announced after the end of the grant:
  `Chronicle.PostsFromOnePath` says what is left of "one path" when operations interleave.
* A token whose `expires_in` is above 9223372036 seconds is recorded with a lifetime that has wrapped around 64 bits, which may be
  negative: then every call fetches (`TokenCache.WrappedLifetimeRefetches`). `TokenCache.ServedForLife` gives the exact condition on the lifetime recorded.

## Model

| member | source | states |
|---|---|---|
| Coverage.UncoversExactly | internal/api/api.go:267-388 | a call, begin or restart, whatever fails and however operations overlap, leaves a member with neither an approved row that is not half released nor an approve between its two calls, if and only if it is one of four kinds of move, judged on the state before it |
| Coverage.InterleavingCoversExactly | internal/api/api.go:227-397 | any interleaving whatever accounts for every member at all times if and only if no move of it is one of those |
| Coverage.NextIsRooted | internal/api/api.go:227-397 | whatever happens, rows stay under their ids and held copies carry the user of their row |
| Coverage.CoverageUnderInterleaving | internal/api/api.go:277-290 | in particular when approves share their rows with nobody and grants get written: every member is then accounted for at all times, with releases and passes overlapping on one row and failing |
| Coverage.NextKeepsInvariant | internal/api/api.go:378-388 | every such step, call or restart keeps the invariant |
| StepwiseRows.RowChangesExactly | internal/api/api.go:267-388 | a row changes if and only if a call about to write it succeeds and it has not expired and was not released at that very time; and to what |
| StepwiseRows.RowsLeadForward | internal/api/api.go:227-397 | over any interleaving in which only approves keep their rows to themselves, whatever fails, no row disappears, identity columns never change, statuses lead forward only, expired rows are final and released ones keep all but their release time |
| StepwiseRows.NextIsUsable | internal/api/api.go:277-290 | what an operation has in hand stays usable: an approve's row is as it read it, a row to expire or release has at most been expired or released since |
| StepwiseRows.NextShifts | internal/api/api.go:267-338 | every such call moves a row only along the lifecycle, except that an ended row may be ended again, when RowChangesExactly says |
| StepwiseElevation.ElevationUnderInterleaving | internal/api/api.go:355-397 | in any interleaving from an empty table that never uncovers a member, once a pass is done that nothing disturbed, a member has an approve under way or a row, not half released, approved less than ActiveTTL + gap + 1s before, gap being counted from the start of that pass |
| StepwiseElevation.UndisturbedPassClears | internal/api/api.go:375-396 | whatever runs and fails beside it, a pass whose own calls succeed leaves no approved row, then or later, whose deadline was a second or more before it began |
| Chronicle.AccountKeptExactly | internal/api/api.go:220-390 | over any interleaving of calls, appends and notifications, the log together with the events operations are about to append says at all times exactly what is so of every request, if and only if no turn misses: a lost event nobody else has, or a late branch whose write fails |
| Chronicle.TurnAccountsExactly | internal/api/api.go:268-390 | the same of one turn, judged on the state before it |
| Chronicle.FurthestIsStatus | internal/api/api.go:220-390 | so with nothing pending the furthest the log says about a request, in whatever order, is its status |
| Chronicle.LogOutOfOrder | internal/api/api.go:287-342 | a run from an empty table in which nothing fails: replayed in order, the log ends with a released request approved, and the approval is announced after the end |
| Chronicle.TurnIsHonestExactly | internal/notify/notify.go:45-63 | all that is or will be announced is so and is announced once, except exactly after a late branch on a pending request whose write fails |
| Chronicle.HonestThroughout | internal/notify/notify.go:45-63 | over any interleaving without such a branch |
| Chronicle.PostsFromOnePath | internal/api/api.go:343-350 | the posts about a request differ and come from one path of the lifecycle: at most two if it lapsed, at most four if it was granted |
| StepwiseProvenance.LogNamesTheApprover | internal/api/api.go:220-390 | over any interleaving in which approves keep their rows to themselves, with any failures and restarts, every event logged or about to be logged names the user and the justification of its row, an approval the approver and the notes on record, and an expiry the system |
| StepwiseProvenance.TurnIsNamed | internal/api/api.go:292-293 | no single call, append or restart changes that |
| AtomicTurns.CreateIsItsTurns | internal/api/api.go:215-224 | a create's insert, event and notification with nobody in between do to table, log, marks and posts what the atomic create does |
| AtomicTurns.ApproveIsItsTurns | internal/api/api.go:257-298 | the same of an approve, granted or late, with any failures: the events name the approver and the notification follows |
| AtomicTurns.ReleaseIsItsTurns | internal/api/api.go:329-353 | the same of a release |
| AtomicTurns.ReconcileIsItsTurns | internal/api/api.go:355-397 | the same of a whole pass, row by row |
| Atomicity.ApproveIsItsCalls | internal/api/api.go:257-290 | an approve whose calls run with nobody in between is the atomic one |
| Atomicity.ReleaseIsItsCalls | internal/api/api.go:329-340 | the same of a release |
| Atomicity.ReconcileIsItsCalls | internal/api/api.go:355-397 | the same of a whole pass, with any failures |
| Atomicity.LastReleaseStays | internal/api/api.go:333-338 | two releases of one grant: the second to write leaves its own, earlier release time |
| Atomicity.OverlapBreaksCoverage | internal/api/api.go:356-364 | an approve and a pass on one row: the user ends a member with the request expired and nothing in flight |
| Atomicity.TwoApprovesBreakCoverage | internal/api/api.go:257-290 | two approves of one row around a release: the user ends a member with the request released and nothing in flight |
| Membership.RunCoverageExactly | internal/api/api.go:277-397 | a run, whatever fails in it, keeps every member covered at all times if and only if no approve strands its user |
| Membership.RunMirrorsExactly | internal/api/api.go:277-397 | a fault-free run keeps that equality at all times if and only if no operation of it does that |
| Membership.StepActive | internal/api/api.go:277-386 | the membership after any operation, whatever fails |
| Membership.StepCoverage | internal/api/api.go:277-290 | an operation, whatever fails, keeps "each member has an approved row" if and only if it is not an approve that adds the member, does not write the row, and has no other approved row to vouch for the user |
| Membership.RunCoverage | internal/api/api.go:277-397 | so every run in which grants get written keeps it, with all other calls failing as they like |
| Membership.FaultFreeStep | internal/api/api.go:277-386 | without faults a user leaves exactly when a grant of theirs ends and joins exactly when one is approved |
| Membership.MirrorStep | internal/api/api.go:277-386 | without faults an operation keeps the group equal to the users with an approved row if and only if it does not end a grant of a user who has another it leaves alone, judged on the state before it |
| Membership.OneGrantIsEnough | internal/api/api.go:277-386 | which takes a user with two approved rows at once |
| Membership.RunMirrors | internal/api/api.go:277-397 | in fault-free runs in which nobody has two approved rows, the group is exactly the users with one |
| Elevation.BoundedElevation | internal/worker/worker.go:12-21 | in fault-free runs with passes at most gap apart, a member at any moment has a row approved less than ActiveTTL + gap + 1s before |
| Elevation.ElevationWithSlack | internal/api/api.go:281 | a member has a row approved at most ActiveTTL + gap + slack ago, slack being only how far passes misjudge deadlines |
| Elevation.TextSlack | internal/store/store.go:157-161 | in any run passes misjudge deadlines by less than one second |
| Elevation.NoSlackInTextOrder | internal/store/store.go:157-161 | and not at all where no stored deadline compares the wrong way round |
| Elevation.BoundedWait | internal/worker/worker.go:12-21 | in such runs no request is pending RequestTTL + gap + 1s after it was made |
| Scenarios.StrandingRun | internal/api/api.go:277-290 | a run from an empty table after which a member has no approved row |
| Scenarios.TwoGrantsRun | internal/api/api.go:300-338 | a fault-free run from an empty table after which a user with an approved row is no member |
| Scenarios.UnwrittenExpiryRun | internal/api/api.go:267-270 | a run from an empty table after which the log says a pending request has expired |
| Scenarios.BoundIsAttained | internal/worker/worker.go:12-21 | for every gap of two nanoseconds or more, a fault-free paced run from an empty table with a member one nanosecond short of ActiveTTL + gap + 1s after the only approval |
| Worker.Serve | internal/api/api.go:173-397 | the handlers and the pass take the service through the operations of a run |
| Worker.RunWorker | internal/worker/worker.go:10-25 | one pass a tick until stopped, a failed pass not retried: with any handlers in between, the service goes through a run |
| Worker.OpsUpToStop | internal/worker/worker.go:14-22 | what runs is every tick's pass and every handler up to the first stop, and nothing after it |
| Worker.PacedByPasses | internal/worker/worker.go:12-21 | a run is paced exactly when its passes start at most gap apart and it ends at most gap after the last, whatever handlers do in between |
| Worker.TicksAreRun | internal/worker/worker.go:12-21 | ticks whose times are in order form a run, and a paced one when they are at most gap apart |
| Recovery.CrashRecovery | internal/api/api.go:355-397 | any number of cut passes and then a clean one end in the statuses and membership of one uninterrupted pass |
| Recovery.CutIsFailingPass | internal/api/api.go:355-397 | a pass cut at any call leaves the rows and members of a pass whose later calls all fail |
| Recovery.CutsRowByRow | internal/api/api.go:355-397 | the cuts of a pass, one after another: nothing, one more row's turn each, a removal without its row, and in the end the whole pass |
| Recovery.PassIsAbsorbed | internal/api/api.go:355-397 | a pass with any faults followed by a clean one ends as the clean one alone, when the text of its time is not after |
| Recovery.CrashRecoveryInLaterSecond | cmd/pim/main.go:37-43 | in particular when the clean pass, as at startup, runs in a later whole second |
| Recovery.RecoveryNeedsTextOrder | internal/api/api.go:355-397 | whenever the text condition on the two times fails, recovery fails in every state with a pending request whose deadline is the earlier time |
| Scenarios.TooSoonRun | internal/api/api.go:356-364 | a run from an empty table: a pass at a request's deadline and another inside the same second expire what the second alone keeps pending |
| Sweep.ExpireAllExact | internal/api/api.go:362-374 | the first loop changes exactly the rows of its batch whose write succeeded |
| Sweep.RevokeAllExact | internal/api/api.go:378-396 | the second loop removes exactly the users whose removal was applied and changes exactly the rows whose calls succeeded |
| Sweep.ReconcileExact | internal/api/api.go:355-397 | for every pattern of failures exactly the overdue rows whose calls all succeeded change, each to its next status; order does not matter |
| Sweep.ReconcileProgress | internal/api/api.go:362-395 | the rows still overdue at the pass's time are the overdue ones less the succeeded ones, so their number never grows |
| Sweep.PassByTheClock | internal/api/api.go:355-397 | a request a second or more past its deadline is ended by a pass whose calls for it succeed, whatever happens to others, and the grant's user removed; one a second or more ahead is left alone |
| Sweep.CleanPassSettles | internal/api/api.go:355-397 | after a pass without faults nothing is overdue at its time |
| Sweep.SecondPassIsIdle | internal/api/api.go:355-397 | a second pass at the same time changes nothing at all, not even the log |
| AuditReplay.RunIsFaithful | internal/api/api.go:220-390 | a run keeps at all times that folding the log gives every request's status and each approval is followed at once by its grant, if and only if every operation of it is recorded |
| AuditReplay.StepIsFaithful | internal/api/api.go:220-390 | an operation, whatever fails, keeps the log a faithful history if and only if the events of what it does to the table, and no others, are logged |
| AuditReplay.LateIsFaithful | internal/api/api.go:268-270 | the late branch writes and logs independently: the log stays true exactly when both succeed or both fail |
| AuditReplay.PassReplay | internal/api/api.go:362-395 | replaying the log of a pass adds the new status of exactly the rows that succeeded and were logged |
| AuditReplay.StoreUpIsRecorded | internal/api/api.go:220-390 | which holds in every run whose store writes succeed, however group calls fail |
| Provenance.EventsAreVouched | internal/api/api.go:220-390 | in any run from an empty table, whatever fails, every event has the user and the justification of its row and an operation behind it: an approval names the approver on record, answered for by the permanent group, with the notes and time on record; an early release whoever asked for it; what passes and late branches do is put down to the system |
| Provenance.LogExactly | internal/api/api.go:403-421 | an event is in the log if and only if an operation of the run caused it, with this actor, subject, detail and break-glass flag |
| Provenance.RunSays | internal/api/api.go:403-421 | operation by operation, the log grows by exactly the events it causes, each once, and what is logged stays |
| Provenance.StepSays | internal/api/api.go:220-390 | the same of one operation, for every pattern of failures |
| Provenance.RowsHaveOrigins | internal/api/api.go:207-336 | every row was made by a create in the words given and at the time on record, approved by an approve, and ended by a release, a late approve or a pass, at the time on record |
| Lifecycle.StepAdvances | internal/api/api.go:207-289 | every operation, whatever fails, moves rows only along the lifecycle and keeps the shape each status calls for |
| Lifecycle.RunKeepsShape | internal/api/api.go:207-289 | every row of every reachable table has that shape: deadlines from the TTLs, approval inside the window, notes and approver |
| Lifecycle.RunRefinesLifecycle | internal/api/api.go:227-397 | over any run no row disappears, identity columns never change, statuses lead forward only, expired and released rows are final |
| Lifecycle.GrantsHaveApprovers | internal/api/api.go:233-289 | behind every granted row is an approve operation by that approver, who was in the permanent group when asked |
| Lifecycle.ReachableRows | internal/api/api.go:207-289 | both of the above from an empty table |
| Lifecycle.ApprovedWasNotExpirable | internal/api/api.go:267 | no granted row was due a second or more before its approval |
| Lifecycle.ExpiredWasNotApprovable | internal/api/api.go:356-364 | no row a pass expired was approvable a second or more later |
| Lifecycle.NothingIsHidden | internal/store/store.go:149-175 | on the stored rows of every reachable table neither expiry query fails, and every grant has its deadline and reads it back exactly |
| Lifecycle.CreateAnswersTruly | internal/api/api.go:180-224 | "created" is answered exactly when the request is now there; any other answer leaves everything as it was and says why: a bad request, somebody else's name or no eligibility, an unreachable group, a failed insert |
| Lifecycle.ApproveAnswersTruly | internal/api/api.go:227-298 | "ok" is answered exactly when the request went from pending to approved, its user then a member; what any other answer can leave behind, and exactly why each of them is given |
| Lifecycle.ReleaseAnswersTruly | internal/api/api.go:300-340 | "ok" is answered exactly when the request went from approved to released, its user then no member; any other answer leaves at most the member removed, and exactly why each of them is given |
| Notifications.PostedAtMostOnce | internal/notify/notify.go:45-63 | over any interleaving and any restarts each (request, kind) is posted at most once, and only after its mark is stored |
| Notifications.NotifiedIsMarkThenPost | internal/store/notify.go:19-32 | an operation's notification is a mark and a post with nobody in between |
| Notifications.RunPostsFit | internal/api/api.go:343-350 | along any run the posts about a request fit its status |
| Notifications.RequestPostsFollowOnePath | internal/api/api.go:343-350 | each request gets at most three posts, whose kinds follow one path of the lifecycle |
| Announcements.PostsTellTheWholePath | internal/api/api.go:221-393 | in a fault-free run with notifications, the posts about a request are exactly the path it took, in order, the last one for the reason its ending operation gives |
| Announcements.PostedExactly | internal/notify/notify.go:45-63 | in any run from an empty table, whatever fails, a mark is posted if and only if an operation got to announce it and its mark call was answered, and then once |
| Announcements.StepTells | internal/api/api.go:221-393 | an operation adds exactly the marks of what it did, for every row of a pass too, and posts exactly the new ones; a late branch announces the expiry even if its write failed |
| Timestamp.TextOrderIsTimeOrder | internal/store/store.go:157-161 | stored texts compare as the times do, except exactly on pairs inside one second whose stripped fractions are prefix-related |
| Timestamp.ParseOfFormat | internal/store/store.go:101-102 | parsing the stored text of any in-range instant gives the same nanosecond back |
| Timestamp.FractionOrder | internal/store/store.go:160-161 | stripped fractions compare as numbers, except exactly when one is a proper prefix of the other, and then in reverse |
| Deadlines.DueAgainstLate | internal/api/api.go:267 | the query's text test and approve's clock test disagree exactly on equal instants and on the reversed pairs |
| Deadlines.DueOutsideOneSecond | internal/store/store.go:157-161 | a deadline a second or more past is always selected, one a second or more ahead never is, and approve's test agrees |
| Deadlines.DueCarriesOver | internal/store/store.go:157-161 | everything due at one time is due at another if and only if the text of the first is not after that of the second |
| Deadlines.LaterSecondComesAfter | internal/store/store.go:157-161 | a time in a later whole second has the later text |
| Deadlines.AlmostOneSecondMissed | internal/store/store.go:157-161 | a deadline on a whole second is still missed 999999999ns later, and never a full second later |
| Storage.ScanOfInsert | internal/store/store.go:96-107 | scanning the row Create wrote gives back the request, whatever optional times and approver are absent |
| Storage.ScanOfOverwrite | internal/store/store.go:133-147 | scanning the row Update wrote gives back the request with the identity columns the row had |
| Storage.SoundAfterWrite | internal/store/store.go:181-205 | a table of stored rows, each what inserting its own request writes, stays one after any write, and the write shows as exactly that request |
| Storage.QueryOfSound | internal/store/store.go:157-175 | on such a table the expiry query never fails and reads exactly the matching requests in the order returned |
| Storage.QueryFailsForGood | internal/store/store.go:168-171 | one selected row that does not scan fails the whole query |
| Storage.SelectExact | internal/store/store.go:157-175 | the batch holds exactly the requests that match, each once |
| Storage.Store.Create | internal/store/store.go:96-107 | adds the request unless the write fails or the id is taken, and changes nothing else |
| Storage.Store.Get | internal/store/store.go:109-113 | returns the stored request, or fails when it is missing or the store is down |
| Storage.Store.Update | internal/store/store.go:133-147 | overwrites status and times of the row kept under the id whatever it holds now, keeps its identity columns, and fails when there is none |
| Storage.Store.ByStatusBefore | internal/store/store.go:157-175 | returns what the query means on the raw rows, and on sound rows the matching requests |
| Storage.Store.AppendAudit | internal/store/audit.go:38-58 | appends the event with the next id and, where it has none, the clock's time, or nothing when the write fails |
| Storage.Store.TryMarkNotified | internal/store/notify.go:19-32 | stores the mark and reports whether it was new |
| Storage.Store.ListAudit | internal/store/audit.go:67-118 | on what the store has written, listing never fails and gives exactly the events asked for |
| AuditView.ListAudit | internal/store/audit.go:67-118 | walking the rows newest first up to the limit reads the accepted ones and fails on the first that does not scan; when all do, the result is what was asked for |
| AuditView.ListingIsView | internal/store/audit.go:90-113 | when every row scans the listing is the first n of the reversed, filtered log, each with its stored time |
| AuditView.ListingFailsExactly | internal/store/audit.go:108-111 | the listing fails if and only if an accepted row that does not scan is among the newest n accepted |
| AuditView.FilteredExact | internal/store/audit.go:71-89 | the filtered log holds exactly the events with the request, the actor and the break-glass flag asked for, in id order |
| AuditView.ViewExact | internal/store/audit.go:67-118 | a view holds events of the log with the request, actor and flag asked for, newest first; a missing one differs in one of them or the view is full, at the limit asked for from 1 to 500 and else at 100 |
| AuditView.ReportsIsUnique | internal/store/audit.go:67-118 | no other sequence of events meets that |
| AuditView.AppendedView | internal/store/audit.go:38-58 | appending changes a view only by putting the new event first, if accepted, and dropping at most the last |
| Service.Notifier.NotifyOnce | internal/notify/notify.go:45-63 | posts only on the first successful mark, and leaves a mark behind even when the post fails |
| Service.Service.HandleCreate | internal/api/api.go:173-225 | the run of guards and calls gives the state and the answer of Protocol.Create, and the answer is true |
| Service.Service.HandleApprove | internal/api/api.go:227-298 | the run of guards and calls gives the state and the answer of Protocol.Approve, on every path, and the answer is true |
| Service.Service.ExpireRequest | internal/api/api.go:268-273 | the late branch writes, logs and notifies whatever its write answers |
| Service.Service.GrantRequest | internal/api/api.go:277-298 | group call, row write, two events and the notification, stopping at the first failure of the first two |
| Service.Service.HandleRelease | internal/api/api.go:300-327 | the run of guards and calls gives the state and the answer of Protocol.Release, and the answer is true |
| Service.Service.ReleaseGrant | internal/api/api.go:329-353 | membership goes first, then the row; events and notification only when both succeeded |
| Service.Service.ExpireOne | internal/api/api.go:363-373 | one turn of the first loop, with the row taken from the snapshot |
| Service.Service.RevokeOne | internal/api/api.go:379-395 | one turn of the second loop, with the row taken from the snapshot |
| Service.Service.ExpireBatch | internal/api/api.go:362-374 | the loop over the snapshot makes exactly the writes of Protocol.ExpireAll |
| Service.Service.RevokeBatch | internal/api/api.go:378-396 | the loop over the snapshot makes exactly the calls of Protocol.RevokeAll |
| Service.Service.Reconcile | internal/api/api.go:355-397 | both queries and both loops give the state of Protocol.Reconcile; an error is reported exactly when a query fails |
| Service.Service.Audit | internal/api/api.go:403-421 | appends one event with its detail and the time of the append, or none when the write fails, and reports which |
| Service.Service.Notify | internal/notify/notify.go:65-101 | tries one (request, kind) notification |
| Service.Service.HandleMe | internal/api/api.go:111-122 | leaves one audit event for a break-glass user and nothing else |
| Text.TrimmedIsUnique | internal/api/api.go:180-181 | a text has one trimmed form: the one TrimSpace gives |
| Text.TrimSpace | internal/api/api.go:180-181 | the result is the input less white space at both ends, and has none left there |
| Text.DecodeOfUtf8 | internal/api/api.go:189 | the bytes whose number the length rules count read back as the text |
| Text.Utf8OfDecoded | internal/api/api.go:189 | and only shortest forms of characters read back: they are UTF-8 |
| Login.Manager.LoginURL | internal/auth/auth.go:49-75 | stores the verifier under the state it sends out with a challenge that decodes to the verifier's hash, and nothing when the random source fails |
| Login.Manager.HandleCallback | internal/auth/auth.go:78-106 | consumes the state before judging it, and sends the stored verifier only for a known, unexpired one |
| Login.TableExact | internal/auth/auth.go:59-63 | the table holds exactly the issued states no callback has consumed, each with its own verifier and expiry |
| Login.CallbackPassesExactly | internal/auth/auth.go:91-97 | a callback passes if and only if its state was issued at most ten minutes before and not consumed since |
| Login.StateIsOneShot | internal/auth/auth.go:91-97 | over every interleaving each issued state passes at most once |
| Login.VerifierMatchesChallenge | internal/auth/auth.go:249-252 | the challenge that went out with a passing callback's state decodes to the hash of the verifier that callback sends |
| Sessions.SplitOfJoined | internal/auth/auth.go:197-200 | the split at the first dot undoes the join |
| Sessions.CookieRoundTrip | internal/auth/auth.go:188-239 | reading the cookie made for a session gives that session up to its expiry second, and "expired" afterwards |
| Sessions.AcceptedIsTagged | internal/auth/auth.go:188-219 | an accepted cookie carries an unexpired session and the tag of exactly the bytes it was read from |
| Sessions.ReadExactly | internal/auth/auth.go:188-219 | a cookie is given a reading, valid or one of the refusals, if and only if it is so of it |
| Base64.DecodeOfEncode | internal/auth/auth.go:193-202 | unpadded base64url reads back at every length |
| Base64.EncodeOfDecodeClean | internal/auth/auth.go:193-202 | what decodes is the encoding of the result up to the last character, and exactly it in whole groups |
| Base64.EncodeAlphabet | internal/auth/auth.go:229 | an encoding stays in the alphabet, which has no dot |
| Base64.KnownEncoding | internal/auth/auth.go:249-252 | the example of appendix A of RFC 7636 |
| TokenCache.Client.AccessToken | internal/keycloak/client.go:131-167 | serves a cached token only with more than 30s left, else returns and caches what it fetches, and a failed fetch leaves the cache alone |
| TokenCache.AnswersLatest | internal/keycloak/client.go:131-167 | over any calls from an empty cache: a call that does not fetch returns the token of the latest fetch, if and only if that has more than 30s left by its own answer |
| TokenCache.HoldsLatest | internal/keycloak/client.go:164-165 | the cache holds the token of the latest fetch with the expiry of that same answer |
| TokenCache.ServedForLife | internal/keycloak/client.go:134-165 | a fetched token is served for life - 30 seconds if and only if the lifetime recorded for it, wrap-around and all, is at least life |
| TokenCache.RecordedAsSent | internal/keycloak/client.go:165 | a lifetime is recorded as it was sent if and only if it is at most 9223372036 seconds either way |
| TokenCache.WrappedLifetimeRefetches | internal/keycloak/client.go:165 | with one second more, two calls at one instant both fetch |
| TokenCache.ExpiryAfterFetch | internal/keycloak/client.go:164-165 | from a fetch on, the cache holds a token that lives at least the life every recorded lifetime has past it |
| TokenCache.FetchSpacing | internal/keycloak/client.go:131-167 | two fetches are at least life - 30 seconds apart |
| TokenCache.FetchBudget | internal/keycloak/client.go:131-167 | which bounds the number of fetches in any stretch of calls, from any cache |
| GroupClient.Client.UserID | internal/keycloak/client.go:76-88 | finds the id of a user the server has, and fails otherwise |
| GroupClient.Client.GroupID | internal/keycloak/client.go:104-129 | the cached or found id is the server's, and the cache stays truthful |
| GroupClient.Client.InGroup | internal/keycloak/client.go:35-50 | answers membership of the (user name, group name) pair |
| GroupClient.Client.AddToGroup | internal/keycloak/client.go:52-62 | inserts the pair when both names resolve; a failed call has changed nothing unless the answer to the last request was lost |
| GroupClient.Client.RemoveFromGroup | internal/keycloak/client.go:64-74 | deletes the pair, with the same exception |
| GroupClient.CacheStaysTruthful | internal/keycloak/client.go:104-129 | however concurrent misses interleave, the cache stays a submap of the server's names and keeps what it holds |
| GroupClient.MissIsLookup | internal/keycloak/client.go:112-129 | a miss and its write with nobody in between remember the name exactly when the server has it |
| GroupClient.MembersFollowPairs | internal/keycloak/client.go:52-74 | inserting or deleting a pair is, for its group, what the handlers take an add or a removal to be, lost answers included, and leaves other groups alone |
| Calendar.DaysBeforeYearClosed | internal/store/store.go:101-102 | the day count over leap years has the Gregorian closed form |
| Calendar.CivilOfInverse | internal/store/store.go:101-102 | the civil fields of a second are valid and count back to that second |
| Calendar.CivilOfSeconds | internal/store/store.go:191-195 | the second of valid civil fields has exactly those fields |
| Calendar.SecondsOrder | internal/store/store.go:160 | field-by-field order is time order, and no two civil times share a second |
| Calendar.SecondsInRange | internal/store/store.go:191-195 | every valid civil time is a second before year 10000 |
| Calendar.MonthTable | internal/store/store.go:101-102 | the days before each month, in common and leap years |
| Calendar.KnownSeconds | internal/store/store.go:101-102 | dates whose Unix seconds are well known |
| Timestamp.KnownText | internal/store/store.go:101-102 | one instant, character by character |
| Decimal.ValueOfPrint | internal/store/store.go:101-102 | a fixed-width decimal field reads back as the number printed |
| Decimal.PrintOfValue | internal/store/store.go:191-195 | printing the number read from a field gives the field back |
| Decimal.PrintOrder | internal/store/store.go:160 | fields of one width compare as text exactly as their numbers do |
| TextOrder.FirstDifference | internal/store/store.go:160 | two texts compare as their first differing characters do |
| TextOrder.CommonPrefix | internal/store/store.go:160 | a common prefix does not affect the order |
| TextOrder.HeadsDecide | internal/store/store.go:160 | different heads of equal length decide the order of what they start |
| TextOrder.Trichotomy | internal/store/store.go:160 | the order is total and antisymmetric |
| TextOrder.LeqTransitive | internal/store/store.go:160 | the order is transitive, so one cut-off time can stand for another |

## Left out

- HTTP routing, JSON bodies, status texts and redirects: handlers keep their guards, the order of their calls and the kind of answer.
- The SQLite driver, schema and migrations: the table is a map, and the expiry and audit queries are what their WHERE, ORDER and LIMIT mean.
- `List` and the reads in `handleMe`, `handleGet` and `handleList`: they change nothing; the break-glass audit event of `handleMe` is kept.
- Times with an offset other than `Z`: the store writes UTC only, so `Timestamp.Parse` reads no other zone.
- Rows and times the store did not write: a text such as one ending in `.50Z` scans, but is no stored form, and what is said of sound rows is not said of it.
- Text that is not valid UTF-8: strings are sequences of Unicode characters, as the JSON decoder hands them over.
- Message texts, deep links and the webhook call: a post is its (request, kind) pair and an arbitrary answer. Who the actor of a request is (`auth.Actor`) is an argument.
- HMAC, SHA-256, `encoding/json` and random bytes: arbitrary functions and values; the JSON round trip is a `requires` of `Sessions.CookieRoundTrip`.
- Recovery.CrashRecovery: compares statuses and membership only; timestamps and log entries may differ, and a pass cut between a row's write and its audit event never logs that event.
- StepwiseElevation.ElevationUnderInterleaving: says nothing of a grant written more than ActiveTTL + 1s after its approve read the clock; its deadline is past when it is written, and the next pass takes it.
- Chronicle.LogOutOfOrder: the events' times are not part of that level; each is the clock's at its append, so they follow the order of the log.
- Notifications.PostedAtMostOnce: a mark whose post failed or was cut off is never retried, so delivery itself is not promised by the code or proved here.
- The token exchange, user info and group-path stripping that follow the login state check.
- Expired login states that nobody redeems stay in the table for ever, in the code as in the model.
- Configuration parsing, logging, break-glass alerts, the web UI and deployment files.
