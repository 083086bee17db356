# Proofs about the versioned decision platform

The platform keeps four aggregates (bridge assets, inspection rounds, defect findings and priority
decisions) in database tables that many requests change at once. Each record carries a version. A
client sends the version it believes is current, `ExpectedVersion`, and the write goes through only if
the stored version still equals it. Priority decisions add a review protocol: a preparer edits a draft, an
independent reviewer moves it to `observe`, `restrict` or `urgent`, and each version leaves an
append-only revision behind.

This project models that protocol, the rate limiter in front of it and the queries over it, and proves
what they guarantee.

## How the model is laid out

| Modules | What they hold |
|---|---|
| `Basics`, `Text`, `Statuses`, `Records` | integer widths, trimming and upper-casing, the four transition graphs, the entities, and the checks made on a row that was read (`Prepare`) |
| `Tables` | the tables as a value, with the statements and transactions on it |
| `Protocol` | any number of in-flight requests, each a sequence of separate database steps that interleave freely |
| `Invariant`, `Commits`, `Guarantees` | what holds in every interleaving, whatever `ExpectedVersion` clients send |
| `ObservedVersions`, `Decisions` | what holds when `ExpectedVersion` is at most the version the request itself read |
| `Boundary`, `Exhibits` | exactly where the first group ends, with concrete runs |
| `Serving` | whole calls without interruption, as functions, and their agreement with the protocol |
| `Answers` | what each call answers, stores and logs, case by case and independently of the shared functions |
| `Trails` | runs of whole calls: each decision's audit trail against its revisions |
| `Repositories`, `Services`, `Seeding` | the imperative code: tables, stores, transactions and services that change state call by call |
| `RateLimit` | the limiter with its local buckets and the shared Redis counter |
| `Tallies`, `Queries`, `Conservation`, `AuditQueries` | lists, pages, status counts and the audit summary |

The layers are connected. Each service method is proved to do what `Serving.Handle` says, and an
uninterrupted task of the protocol is proved to do the same. The four aggregates share one machine with a
`Policy` (graph, initial status, validation, and whether the review rules apply), because the three
unreviewed services differ in nothing else.

Three parts of the protocol's state exist for the proofs only: `hist` holds what each commit stored, who
committed it and the row its checks were made on; `log` lists the committed writes in order, and is proved
to hold exactly the requests that committed, each once (`Guarantees.ReachableLogged`); `auditors` says which
request appended which audit entry.

Reductions made in the model:

- The checks after the first read touch local state only, so they share a step with that read. The first
  read of a decision also loads its revisions, which no check uses; only its row is kept.
- The final read of a decision is two steps, because others can write between its two statements.
- A statement that fails for its own reasons is a `Fault` step, and a failed audit insertion is an
  `Audit` step with `stored == false`.
- The limiter's verdict uses the count alone, so it shares a step with the count. The Redis attempt and the
  local fallback of one request are two steps.
- Requests in the protocol hold normalised input. The service methods take raw input and normalise it.
- A version is 64 bits wide, `ExpectedVersion + 1` wraps, and the signed database column refuses
  versions from 2^63 on.

## Assumptions about the database and Redis

- A transaction is one atomic step and leaves nothing behind when it fails.
- `UPDATE ... WHERE id AND version` tests and writes atomically and sees live rows only.
- Soft deletion keeps the row, its code and its revisions.
- `code` is unique over all rows, deleted ones too, and (decision, version) over all revisions.
- GORM may set `updated_at` itself, and does not send an `OFFSET` that is not positive.
- The Redis counter of a (key, minute) is atomic and is kept for as long as that minute lasts; its reply may
  be lost after the increment.

## What the proofs found

- The platform's README calls the three priority levels final and says that every status change is
  protected by optimistic locking (`README.md:42-44`). The services check the row they read, but the write
  compares the stored version with the client's `ExpectedVersion`, not with the version that was read. A
  client that names a version ahead of the one it reads can therefore write a draft over a decision that
  was finalised in between (`Exhibits.StaleDraftReplacesFinal`). This is possible exactly when
  `ExpectedVersion` exceeds the version read (`Boundary.FinalityBreaksIffAhead`, and for all four aggregates
  `Boundary.OverwritesUnseenIffAhead`). When it never does, finality holds over whole runs
  (`Decisions.LevelsAreFinal`).
- Deletion carries no version at all. For all four aggregates it can remove a row that it never read
  (`Boundary.DeletionMayRemoveUnseen`). A deletion that has passed its draft check can remove a decision that
  was finalised in between (`Exhibits.DeletionRemovesFinal`), whenever the decision has a version left and
  whatever versions clients send (`Boundary.DeletionMayRemoveLevel`).
- The platform's README promises a full snapshot with every revision (`README.md:43`). Of the revisions in a
  database that starts from the seeds, exactly those that a request wrote keep that promise; the seeded ones
  hold three fields only (`Seeding.FullIffRequested`).
- It also promises an audit entry for every status change (`README.md:42`). A commit may lack its entry
  (`Exhibits.CommitWithoutEntry`). The client of a transition or a deletion is told so, exactly then
  (`Guarantees.AnswerTellsAudit`); the client of a creation or an update is not told by any answer
  of these services (`Guarantees.AnswerHidesAudit`).
- The separation of preparer and reviewer survives every interleaving and every `ExpectedVersion`
  (`Guarantees.SeparationOfDuties`).
- `(page - 1) * pageSize` is an `int` product. For huge page numbers it wraps, and the first rows are
  shown again (`Queries.HugePageShowsFirstRows`).
- The local limiter forgets requests when the clock goes back to an earlier minute and a bucket is reset or
  swept on the way (`RateLimit.ClockStepBackForgets`). Its count is exact if and only if each request of the
  key in that minute, but the first, found the bucket of the one before (`RateLimit.ExactIffUnbroken`); with
  fewer than 512 keys, if and only if none in another minute lies between two of them. A
  clock that never goes back to an earlier minute meets that condition; within a minute it may go back.

## Model

| member | source | states |
|---|---|---|
| `Guarantees.RevisionChain` | backend/internal/repository/priority_decision.go:59-84 | In every reachable state a decision's revisions are exactly versions 1..Version in order; each one agrees with what was stored at its version, each one that a request wrote holds all of it up to timestamps (and the id at version 1), the last stored version is the row, and code and preparer never differ |
| `Guarantees.SnapshotsOfRequests` | backend/internal/service/priority_decision.go:165-176 | Every revision that a run adds was written by one of its requests and holds exactly the row that this request stored |
| `Guarantees.RevisionsAppendOnly` | backend/internal/model/priority_decision.go:29-31 | Over any continuation of a run, revisions are only appended, the version never falls, and code and preparer never change |
| `Guarantees.CommitOutcome` | backend/internal/repository/priority_decision.go:69-84 | A prepared change fails with a conflict exactly when no live row has the expected version, fails otherwise only for an exhausted version column, and is never refused by the (decision, version) index |
| `Guarantees.SeparationOfDuties` | backend/internal/service/priority_decision.go:78-118 | For every interleaving and every ExpectedVersion, each non-draft revision was written by a reviewer or admin other than the preparer, and each draft revision by the preparer or an admin |
| `Guarantees.OneWinner` | backend/internal/repository/base.go:59-70 | Of all requests on one record with the same ExpectedVersion at most one ever commits, so a retry cannot apply a change twice |
| `Guarantees.CommitStoresRequest` | backend/internal/service/priority_decision.go:84-133 | A committed update stored the requested fields with the status it read, a committed transition the requested status with the fields it read, both at ExpectedVersion + 1 under the unchanged code and preparer, with a revision that carries caller and note |
| `Guarantees.CreationStoresRequest` | backend/internal/service/priority_decision.go:47-63 | A committed creation stored its own code and fields at version 1 in the initial status, prepared by its caller, who signs the first revision |
| `Guarantees.InsertOutcome` | backend/internal/repository/priority_decision.go:59-68 | In any interleaving an insertion is refused exactly for invalid input, or for a key or code that some row has |
| `Guarantees.RemoveOutcome` | backend/internal/repository/base.go:72-81 | In any interleaving a checked deletion marks the row as deleted if it is there, and answers not-found otherwise |
| `Guarantees.RereadOutcome` | backend/internal/service/priority_decision.go:104-105 | In any interleaving the final read takes the row as it is then, and answers not-found if it was deleted meanwhile |
| `Guarantees.VersionsStayValid` | backend/internal/service/priority_decision.go:158-163 | Every version of every record that was ever stored passes business validation, whatever ExpectedVersion clients send |
| `Guarantees.ReachableLogged` | backend/internal/repository/priority_decision.go:69-84 | In every reachable state the logged writes are exactly the requests that have committed, each once and with its own content |
| `Commits.QuietStep` | backend/internal/repository/priority_decision.go:59-84 | A step that logs no write leaves tables and histories as they are |
| `Commits.RunAuthors` | backend/internal/service/priority_decision.go:59-133 | Whatever a run adds to a record's history, one of its requests has written, exactly so |
| `Guarantees.VersionIsCommitCount` | backend/internal/repository/priority_decision.go:71-80 | A record's version is its starting version plus the number of requests that have committed an update or transition of it |
| `Guarantees.ServedAfterCommit` | backend/internal/repository/priority_decision.go:52-58 | The decision returned after a commit, read in two statements with writers in between, has gap-free revisions that reach its version and agree with it, is at least as new as the commit, and at the same version is the row committed |
| `Guarantees.ReadsAreConsistent` | backend/internal/service/priority_decision.go:39-41 | The same for any reader: a decision read in one state and its revisions read in any later one are gap-free, reach its version and agree with it there |
| `Guarantees.LinkAttests` | backend/internal/service/priority_decision.go:134-136 | Each create, update or transition audit entry reports the commit of the request that appended it: actor and request id of the commit or their stand-ins, entity, record, action, the status its checks read and the status it stored |
| `Guarantees.EntryTellsRequest` | backend/internal/service/priority_decision.go:66-151 | Every audit entry, deletions included, carries actor and request id of its request or their stand-ins, action, entity, record, statuses before and after, and the detail of its kind |
| `Guarantees.AuditsReportCommits` | backend/internal/service/security.go:58-73 | In every state of every run, audit failures included, there is an injection from create, update and transition entries to commits that they report truthfully |
| `Guarantees.AuditTells` | backend/internal/service/security.go:65-72 | The audit attempt of a committed request adds its entry if and only if the insertion is accepted, and there was none before |
| `Guarantees.AnswerTellsAudit` | backend/internal/service/priority_decision.go:134-151 | Once the audit attempt of a committed transition or deletion is over, its entry exists if and only if the request has not failed with the audit error |
| `Guarantees.AnswerHidesAudit` | backend/internal/service/priority_decision.go:66-104 | Whether the audit entry of a creation or an update is stored or lost, every continuation gives every create, update, transition and delete request the same answer and leaves the same tables |
| `Guarantees.DeletedForever` | backend/internal/repository/base.go:72-81 | A deleted record's row and revisions stay as they are over any continuation, and no insertion can ever reuse its code |
| `Guarantees.DeletedWasDraftWhenRead` | backend/internal/service/priority_decision.go:140-152 | A deleted decision was a live draft when its deletion read it, and what was removed is what was read exactly when the version had not moved |
| `Invariant.StepKeeps` | backend/internal/service/priority_decision.go:43-152 | Every step of every request keeps the full invariant relating tables, histories, tasks and audit log, and only extends histories and revisions |
| `Invariant.RunKeeps` | backend/internal/service/priority_decision.go:43-152 | The same over any sequence of steps |
| `Invariant.ChangeAppends` | backend/internal/repository/priority_decision.go:71-82 | The transaction commits exactly when it hits a live row at the expected version, and then rewrites that row and appends one revision to that decision alone |
| `Invariant.NextRevisionFits` | backend/internal/repository/priority_decision.go:81-82 | The revision that a successful compare-and-set adds is the next one in line |
| `ObservedVersions.NoAba` | backend/internal/service/priority_decision.go:71-101 | With ExpectedVersion at most the version read, a successful compare-and-set overwrites precisely the row that the checks were made on |
| `ObservedVersions.InterleavingsAreSequential` | backend/internal/service/priority_decision.go:70-138 | With observed versions any interleaving leaves the tables exactly as serving its commits whole, one by one in commit order, and these are exactly the requests that committed, each once |
| `ObservedVersions.HistoriesAreWalks` | backend/internal/service/bridge_asset.go:42-112 | With observed versions the status history of every record is a walk in its transition graph, in which transitions follow edges and updates keep the status; that of a record created in the run starts at the initial status |
| `ObservedVersions.AuditsReportBefore` | backend/internal/service/priority_decision.go:104-134 | With observed versions the status before in an audit entry is that of the version before the commit it reports, and empty for a creation |
| `ObservedVersions.RunRemembers` | backend/internal/service/priority_decision.go:71-101 | Over any continuation a request keeps the row it read, so the hypothesis on observed versions can be stated of the last state of a run |
| `Decisions.DraftsThenOneLevel` | backend/internal/service/priority_decision.go:75-121 | With observed versions a decision's revisions are drafts followed by at most one priority level, which is then the last |
| `Decisions.LevelsAreFinal` | README.md:44 | With observed versions, once a decision has a priority level nothing but deletion changes the row, and its revisions never change |
| `Decisions.FinalRepeatsLastDraft` | backend/internal/service/priority_decision.go:108-133 | With observed versions a final version repeats all content of the version before it, which is a draft; the evidence of both revisions and the snapshots that requests wrote show that content |
| `Decisions.FinaliserReadLastDraft` | backend/internal/service/priority_decision.go:108-133 | Whoever committed it asked for a transition, named the version of that last draft, and had read exactly that draft |
| `Decisions.EntryReplacesDraft` | backend/internal/service/priority_decision.go:75-121 | With every commit checked on the one before it, each commit after the first replaced a draft, and one that leaves draft is a transition that keeps all fields |
| `Boundary.OverwritesUnseenIffAhead` | backend/internal/repository/base.go:59-70 | For each aggregate, other requests can make a prepared change overwrite a row that it did not check if and only if its ExpectedVersion is ahead of the version read (and storable) |
| `Boundary.FinalityBreaksIffAhead` | backend/internal/service/priority_decision.go:95-101 | A prepared change can be made to overwrite a finalised decision if and only if its ExpectedVersion is ahead of the version read (and storable) |
| `Boundary.DeletionMayRemoveUnseen` | backend/internal/repository/base.go:72-81 | For each aggregate, a deletion that has passed its checks can still remove a row that it did not read, all clients naming only versions they have seen, if and only if the record has moved on already or has a version left to move on to |
| `Boundary.DeletionMayRemoveLevel` | backend/internal/service/priority_decision.go:140-151 | A deletion that has passed its check can still remove a decision with a priority level, all clients naming only versions they have seen, if and only if the decision has its level already or has a version left for it |
| `Boundary.PushTo` | backend/internal/service/priority_decision.go:70-106 | While one request waits, others can move a draft, or any unreviewed record, to any later storable version |
| `Boundary.UnseenNeedsLead` | backend/internal/repository/base.go:59-70 | No continuation makes a change overwrite an unseen row unless its ExpectedVersion is ahead |
| `Exhibits.StaleDraftReplacesFinal` | backend/internal/repository/priority_decision.go:71-74 | From an empty database: a run in which version 2 is final and version 3 is a draft again |
| `Exhibits.DeletionRemovesFinal` | backend/internal/repository/base.go:72-81 | From an empty database, with observed versions: a run in which a finalised decision is deleted |
| `Exhibits.CommitWithoutEntry` | backend/internal/service/priority_decision.go:131-136 | From an empty database: a run in which a decision is finalised and the audit log stays empty |
| `Serving.UninterruptedTaskIsCall` | backend/internal/service/priority_decision.go:43-152 | A task that nobody interrupts leaves the same tables, audit log and answer as the whole call, for every request and every pattern of storage failures |
| `Answers.ReviewChecked` | backend/internal/service/priority_decision.go:113-122 | On the row read, a review passes if and only if a reviewer or an admin other than the preparer moves a draft to a priority level; the first condition that fails names the error |
| `Answers.EditChecked` | backend/internal/service/priority_decision.go:75-83 | On the row read, an edit passes if and only if the preparer or an admin edits a draft with complete input; the first condition that fails names the error |
| `Answers.DiscardChecked` | backend/internal/service/priority_decision.go:145-147 | A deletion of a decision passes if and only if it is a draft |
| `Answers.RecordChecked` | backend/internal/service/defect_finding.go:64-123 | For bridges, inspections and defects: an update passes if and only if the input is complete, a transition if and only if it is an edge of the graph, and a deletion always |
| `Answers.ValidIffFilledIn` | backend/internal/service/priority_decision.go:158-163 | Validation refuses exactly blank text in four fields, for decisions in six |
| `Answers.PoliciesByName` | backend/internal/service/inspection_round.go:42-123 | Entity names, initial statuses, graphs and fixed wording of the four services |
| `Answers.CreateAnswer` | backend/internal/service/priority_decision.go:43-68 | Every case of a creation: which refusal and that it changes nothing, or the stored draft, its revision, the audit entry and the answer |
| `Answers.UpdateAnswer` | backend/internal/service/priority_decision.go:70-106 | Every case of an edit, in the order of the checks |
| `Answers.TransitionAnswer` | backend/internal/service/priority_decision.go:108-138 | Every case of a review; a permitted one at the current version goes through, by an admin too |
| `Answers.DeleteAnswer` | backend/internal/service/priority_decision.go:140-152 | Every case of a deletion |
| `Answers.RecordCreateAnswer` | backend/internal/service/bridge_asset.go:42-62 | Every case of a creation of a bridge, inspection or defect |
| `Answers.RecordUpdateAnswer` | backend/internal/service/inspection_round.go:64-90 | Every case of an update |
| `Answers.RecordTransitionAnswer` | backend/internal/service/defect_finding.go:92-112 | Every case of a transition |
| `Answers.RecordDeleteAnswer` | backend/internal/service/bridge_asset.go:114-123 | Every case of a deletion |
| `Trails.TrailsMatchRevisions` | backend/internal/service/priority_decision.go:43-152 | From any tables in which each decision has its newest revision, over any run of whole calls: a decision's revisions (and "deleted" at the end if it is gone) grow by the statuses of its commits, its audit trail by those whose entry was stored; the two differ by the number of lost entries, and only drafts are deleted |
| `Trails.NoneLost` | backend/internal/service/priority_decision.go:66-151 | Calls whose audit insertions succeed lose no entry of a commit |
| `Trails.InvIsSound` | backend/internal/repository/priority_decision.go:59-84 | Every state that the protocol reaches has such tables |
| `Seeding.TrailsFromSeeds` | backend/internal/database/database.go:229-252 | Whole calls on the seeded tables without a lost entry: for each decision, seeded or not, its seeded revisions followed by its audit trail are its revision statuses, with "deleted" at the end if it is gone, and only drafts are deleted |
| `Trails.CallExtends` | backend/internal/service/priority_decision.go:43-152 | One whole call adds to a decision's revisions and audit trail what it commits, whichever decision it is about and whether it succeeds or fails |
| `Repositories.Store.Get` | backend/internal/repository/base.go:49-53 | Returns the live row, or not-found |
| `Repositories.Store.Create` | backend/internal/repository/base.go:55-57 | Inserts under a fresh id, or changes nothing when the code is taken by any row, deleted ones included |
| `Repositories.Store.Update` | backend/internal/repository/base.go:59-70 | The compare-and-set on a live row, with conflict and refusal leaving the tables unchanged |
| `Repositories.Store.Delete` | backend/internal/repository/base.go:72-81 | Marks a live row as deleted and keeps everything else, or reports not-found |
| `Repositories.DecisionRepository.Get` | backend/internal/repository/priority_decision.go:52-58 | Run with nothing written between its two statements: the live row and its revisions in version order |
| `Repositories.DecisionRepository.CreateWithRevision` | backend/internal/repository/priority_decision.go:59-68 | Row and first revision together, or neither |
| `Repositories.DecisionRepository.UpdateWithRevision` | backend/internal/repository/priority_decision.go:69-84 | Compare-and-set and revision together, or neither |
| `Repositories.SecurityService.Audit` | backend/internal/service/security.go:58-73 | Appends one entry with every field as given and a stand-in for a missing actor or request id; fails without effect on a missing action or entity type, or a failed insertion |
| `Services.RecordService.Create` | backend/internal/service/bridge_asset.go:42-62 | Tables, audit log and answer are those of the whole call in `Serving.Handle` |
| `Services.RecordService.Update` | backend/internal/service/defect_finding.go:64-90 | Likewise for an update of a bridge, inspection or defect |
| `Services.RecordService.Transition` | backend/internal/service/inspection_round.go:92-112 | Likewise for a transition |
| `Services.RecordService.Delete` | backend/internal/service/bridge_asset.go:114-123 | Likewise for a deletion |
| `Services.DecisionService.Create` | backend/internal/service/priority_decision.go:43-68 | Likewise for a decision, with its first revision |
| `Services.DecisionService.Update` | backend/internal/service/priority_decision.go:70-106 | Likewise for an edit of a draft, with every error branch in the order of the source |
| `Services.DecisionService.Transition` | backend/internal/service/priority_decision.go:108-138 | Likewise for a review, including the failure after a lost audit entry |
| `Services.DecisionService.Delete` | backend/internal/service/priority_decision.go:140-152 | Likewise for a deletion |
| `Services.AssignFields` | backend/internal/service/priority_decision.go:84-94 | Assigning the business fields one by one gives the normalised input and touches nothing else |
| `Records.NormaliseProjects` | backend/internal/service/priority_decision.go:158-163 | Normalising twice is normalising once, and validation judges raw and normalised input alike |
| `Records.NormaliseByField` | backend/internal/service/priority_decision.go:84-94 | Each field is trimmed on its own, and the related code upper-cased too |
| `Text.TrimProjects` | backend/internal/service/priority_decision.go:49-56 | Trimming yields exactly the strings with no white space at either end, and leaves those alone |
| `Text.UpperTrimProjects` | backend/internal/service/priority_decision.go:49-56 | Stored codes stay trimmed and upper-cased, and are empty only for blank input |
| `Text.TrimStrips` | backend/internal/service/priority_decision.go:49-56 | Trimming takes white space from both ends, all of it and nothing else |
| `Text.TrimBlank` | backend/internal/service/priority_decision.go:159 | It leaves nothing exactly when the text is white space only |
| `Text.SpacesByCode` | backend/internal/service/priority_decision.go:159 | White space by code point |
| `Text.UpperChangesCase` | backend/internal/service/priority_decision.go:49-56 | Upper-casing shifts the letters a to z and nothing else |
| `Statuses.DecisionMoves` | backend/internal/constants/status.go:50-60 | A decision can move from draft to each of the three priority levels, and nowhere else |
| `Statuses.BridgeMoves` | backend/internal/constants/status.go:28-33 | The moves of a bridge, from status to status |
| `Statuses.InspectionMoves` | backend/internal/constants/status.go:35-40 | The moves of an inspection round |
| `Statuses.DefectMoves` | backend/internal/constants/status.go:42-48 | The moves of a defect finding |
| `Tables.InsertRevisionKeepsIndex` | backend/internal/model/priority_decision.go:34-35 | The unique index refuses exactly the versions already taken; an accepted insertion adds that revision only and keeps version order |
| `Seeding.SeedPriorityDecision` | backend/internal/database/database.go:206-253 | Leaves tables with a live decision alone, leaves nothing behind when refused, and puts exactly the seed decisions and revisions into empty tables |
| `Seeding.SeedOne` | backend/internal/database/database.go:230-250 | Inserts one seed decision with its one or two revisions |
| `Seeding.SeededRows` | backend/internal/database/database.go:229-252 | Item i gets id i + 1 and its own revisions, and the seeded tables hold nothing else |
| `Seeding.SeedRevisionsTell` | backend/internal/database/database.go:235-246 | The revisions of a seeded decision, field by field |
| `Seeding.SeedItemsSeedable` | backend/internal/database/database.go:212-228 | The three seed decisions have distinct codes, and each is a draft at version 1 or a priority level at version 2 |
| `Seeding.SeedItemsValid` | backend/internal/database/database.go:212-228 | The seed decisions bypass the service but pass its validation |
| `Seeding.SeededAtRest` | backend/internal/database/database.go:229-252 | The seeded tables satisfy the base case of every guarantee above |
| `Seeding.FullIffRequested` | backend/internal/database/database.go:235-246 | In every run from seeded tables, a revision holds the whole decision if and only if a request of the run wrote it |
| `Seeding.FreshRowsAtRest` | backend/internal/database/database.go:128-204 | Tables of valid rows at version 1 with distinct codes satisfy the base case of every guarantee about bridges, inspections and defects, whatever the statuses |
| `RateLimit.Limiter.IncrementLocal` | backend/internal/middleware/ratelimit.go:71-83 | The answer is at least one and at most the number of requests with this key in this minute, and equals it if and only if each of them but the first resumed the bucket of the one before; so it does when the clock does not go back to an earlier minute. No bucket of the current minute is lost |
| `RateLimit.ExactIffUnbroken` | backend/internal/middleware/ratelimit.go:71-94 | After any run of local calls, with any clock, a bucket holds the number of requests of its key in its minute if and only if none of them but the first met a reset or swept bucket, and it never holds more |
| `RateLimit.FewKeysUnbrokenIffTogether` | backend/internal/middleware/ratelimit.go:71-94 | With fewer than 512 keys that condition says of the requests alone: none of the key in another minute lies between two in this minute |
| `RateLimit.MonotoneIsUnbroken` | backend/internal/middleware/ratelimit.go:76-79 | A clock that does not go back to an earlier minute meets that condition for every key and minute |
| `RateLimit.StepBackExactIffUnused` | backend/internal/middleware/ratelimit.go:76-79 | When exact buckets see a key in an earlier minute and then in the latest again, that answer is exact if and only if the key had not been used in the latest minute |
| `RateLimit.Limiter.CleanupLocal` | backend/internal/middleware/ratelimit.go:85-94 | Below 512 keys nothing happens; otherwise exactly the buckets of earlier windows go |
| `RateLimit.Limiter.Increment` | backend/internal/middleware/ratelimit.go:57-69 | The (key, minute) counter goes up by one when Redis is reached, and its value is the answer when the reply arrives |
| `RateLimit.CountersCountRequests` | backend/internal/middleware/ratelimit.go:61-83 | In every interleaving the shared counter of a key and minute is the number of attempts that reached Redis, and the local counter has seen exactly the fallbacks |
| `RateLimit.AnswerIsByRank` | backend/internal/middleware/ratelimit.go:48-68 | A request that Redis answers is admitted if and only if fewer than `limit` attempts of its key and minute reached Redis before |
| `RateLimit.RedisAdmitsUpToLimit` | backend/internal/middleware/ratelimit.go:48-68 | With no reply lost Redis admits exactly min(requests, limit) per key and minute |
| `RateLimit.LocalAdmitsUpToLimit` | backend/internal/middleware/ratelimit.go:48-83 | Where its count is exact the local counter admits exactly min(fallbacks, limit) per key and minute |
| `RateLimit.WindowIsMinute` | backend/internal/middleware/ratelimit.go:74 | The window of a time is the start of its minute |
| `RateLimit.SweptDropsEarlier` | backend/internal/middleware/ratelimit.go:85-94 | Below 512 keys nothing is swept, from there on exactly the buckets of earlier minutes |
| `RateLimit.AdmittedWithinCounts` | backend/internal/middleware/ratelimit.go:48-53 | The admissions in 60 seconds, as places in the list of verdicts |
| `RateLimit.Limiter.TryRedis` | backend/internal/middleware/ratelimit.go:40-54 | A request's first step: its verdict by the Redis count if there is an answer, with the account of verdicts kept fair |
| `RateLimit.Limiter.FallBack` | backend/internal/middleware/ratelimit.go:41-54 | Its second step when there is none: its verdict by the local count, admitted exactly within the limit where that count is exact, with the account kept fair |
| `RateLimit.Limiter.Middleware` | backend/internal/middleware/ratelimit.go:37-55 | One request run alone is those two steps, and is admitted if and only if the counter that answers is within the limit |
| `RateLimit.StaysTracked` | backend/internal/middleware/ratelimit.go:71-94 | One local count keeps the buckets exact, for every key, while the clock does not go back to an earlier minute |
| `RateLimit.BoundedBySweep` | backend/internal/middleware/ratelimit.go:85-94 | After a call at most 512 keys are tracked, or at most those of the current window |
| `RateLimit.CourseIsFair` | backend/internal/middleware/ratelimit.go:37-83 | In every interleaving of the steps of any requests: per key and minute the local counter, where its count is exact, admits exactly min(requests, limit), and Redis at most the limit |
| `RateLimit.MoveKeepsFair` | backend/internal/middleware/ratelimit.go:40-52 | One step of any request keeps that account for every key and minute |
| `RateLimit.RollingBounds` | backend/internal/middleware/ratelimit.go:37-83 | In every interleaving, while no bucket of the key's two minutes is reset or swept: per key, any 60 seconds admit at most twice the limit when only the local counter answers; with Redis and fallback mixed, one aligned minute at most twice and any 60 seconds at most four times the limit |
| `RateLimit.WithinTwoWindows` | backend/internal/middleware/ratelimit.go:37-83 | What any 60 seconds admit is at most what two neighbouring aligned minutes admit on both counters |
| `RateLimit.ClockStepBackForgets` | backend/internal/middleware/ratelimit.go:76-79 | After one step back of the clock to an earlier minute the local counter has forgotten a request |
| `Queries.List` | backend/internal/repository/base.go:29-47 | The total is the number of live matching rows when they are counted; the items are of those rows as they are when the page is read, sorted by updated_at and id, both descending, and are the requested page when its offset fits in an int |
| `Queries.KeepFilters` | backend/internal/repository/base.go:32-38 | A blank search or status filters nothing, a status keeps exactly the rows that have it, a search those that match |
| `Queries.Select` | backend/internal/repository/priority_decision.go:45-49 | Yields the sorted listing of the live rows that pass the filter, each once |
| `Queries.ListingUnique` | backend/internal/repository/base.go:44 | There is one such listing, because no two rows tie |
| `Queries.PagesPartition` | backend/internal/repository/base.go:44-45 | Pages 1 to ceil(total/size) joined are the whole listing in order, and later pages are empty |
| `Queries.PageCountIsCeiling` | backend/internal/repository/base.go:44-45 | That many pages cover the listing, and one fewer does not |
| `Queries.PageServedIffOffsetFits` | backend/internal/repository/base.go:45 | The page served is the right one if and only if its offset fits in an int, or wraps to an offset past the end |
| `Queries.HugePageShowsFirstRows` | backend/internal/repository/base.go:45 | A page far beyond the end whose offset wraps shows the first rows |
| `Queries.BoundPagesAreNormal` | backend/internal/handler/system.go:149-159 | Normalising after binding changes nothing, so the page echoed is the page used; the two agree on raw input exactly when pageSize is at most 100 |
| `Queries.NormalPage` | backend/internal/repository/base.go:102-113 | Page numbers and sizes in range are kept, and others become 1, 20 or 100 |
| `Queries.WrapIntKeepsBits` | backend/internal/repository/base.go:45 | A wrapped product is an int with the same 64 low bits |
| `Queries.CountByStatus` | backend/internal/repository/base.go:83-100 | The counts are the tally of the statuses of all live rows |
| `Queries.CountsAgreeWithLists` | backend/internal/repository/base.go:36-42 | The counts add up to the unfiltered total, each equals the total filtered by its status, and a status without live rows is absent |
| `Tallies.TallyCounts` | backend/internal/repository/base.go:84-98 | The groups are the values that occur, each with its exact positive count |
| `Tallies.TallyTotal` | backend/internal/repository/base.go:84-98 | Grouping loses and repeats nothing |
| `Conservation.StepMovesCounts` | backend/internal/repository/base.go:83-100 | In every interleaving a creation adds one to the initial status, a deletion takes one from the stored status, a change moves at most one row between statuses, and nothing else moves a count |
| `Conservation.ObservedChangeMovesCounts` | backend/internal/service/priority_decision.go:119-131 | With observed versions an update moves no count, and a transition moves one row from the status it was checked against to its target |
| `Conservation.LiveIsListed` | backend/internal/repository/base.go:36-42 | The listing filtered by a status has one row for each live record with that status |
| `Conservation.CountsAreLive` | backend/internal/repository/base.go:83-100 | The status counts are the numbers of live rows with each status |
| `AuditQueries.SummarizeAudits` | backend/internal/repository/security.go:62-90 | Each of the five figures is right for the log as its own query finds it |
| `AuditQueries.FiguresCountEntries` | backend/internal/repository/security.go:67-88 | The five figures are the numbers of entries from `since` on: all, transitions, each action and each entity type, and their distinct actors |
| `AuditQueries.GroupCounts` | backend/internal/repository/security.go:79-86 | One group for each value, with its count, largest first |
| `AuditQueries.SummaryIsConsistent` | backend/internal/repository/security.go:62-90 | With appends between the queries Total <= sum of actions <= sum of entity types and Transitions <= that action's count; on a log at rest the sums agree and actors are at most Total |

## Left out

- HTTP handlers, routing, JWT, password hashing, login, roles on routes: a request's actor, role and request id are inputs.
- GORM and SQL internals, migrations, connection retries: only the assumptions above are kept.
- A commit whose acknowledgement is lost: a failed write statement has no effect in the model.
- The order of two refusals: a version that the signed column cannot hold is refused after the row match here, while a driver may refuse it before.
- The JSON text of snapshots: a snapshot is the decision as a value; a seeded one holds code, status and evidence only.
- SQL LIKE and the lower-casing of search text: pattern matching is a parameter of `Queries.List`.
- Upper-casing beyond ASCII letters, length limits of columns, and binding rules of request bodies.
- Time zones and sub-second clock readings: timestamps are integers.
- `float64` metric values: carried as real numbers that nothing computes with.
- The literal seeds of bridges, inspection rounds and defect findings: `Seeding.FreshRowsAtRest` holds of any such rows.
- Paging of the audit log and entity history: ordered by created_at alone, so their pages need not partition the log.
- The clamp on the window of the audit summary, the overview that combines four status counts, and runtime configuration.
- Limiter response headers and its status report, and how the client key is derived.
- "The finaliser differs from the last editor": the code compares with the preparer only, so this is not claimed.
- Decisions listed with their revisions: `Queries.List` returns rows; the revisions are those of the same tables.
- `updated_at` in the served row of an update: the stored value is the database's write time, which the source may set to the service's own reading.
- Reads of the audit log are not among the requests of the protocol.
- The frontend with its copy of the transition table.
- Queries.CountByStatus: one statement in the source and one state here; the reading loop walks rows instead of groups.
- Repositories.DecisionRepository.Get: one state for both of its statements, because it is the method run alone; `Guarantees.ReadsAreConsistent` and `Guarantees.ServedAfterCommit` have them apart.
- Services.RecordService.Update: one class with a policy stands for three service files of the same text.
- ObservedVersions.InterleavingsAreSequential: a deletion is replayed as the unversioned removal that it is, without its draft check, which need not hold of the row removed.
- RateLimit.RollingBounds: supposes the exact condition of the local count, which a clock going back to an earlier minute can break.
