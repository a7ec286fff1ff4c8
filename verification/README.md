# Railway bridge defect priority: the versioned write protocol, proved

The server keeps bridges, inspection rounds, defect findings and priority decisions in four
tables. A write request reads a row, checks it, commits one transaction guarded by the version
the *client* sent, appends an audit entry and reads the row again. These are separate steps:
any number of requests interleave between them. This project models that system, the in-memory
rate limiter, and listing with its status counts, and proves what every run keeps.

`dafny verify dfyconfig.toml` checks the whole project.

## Reading the files

- `Domain.dfy`: records, text normalisation, the four status graphs.
- `Store.dfy`: tables and transactions as functions of the tables.
- `Protocol.dfy`: the transition system. A state holds the tables, the audit log, every
  request's position and the commits so far. `Behavior` is a run: states and the steps between
  them. A storage operation may fail at any step; a request may stop for good at any step.
  The revision's `role`, the audit entry's `rid` and the list of commits observe the program,
  which does not store them.
- `History.dfy`, `Accounts.dfy`: which commits are legal, and laws of commit histories.
- `Invariants.dfy`, `Ownership.dfy`, `Guarantees.dfy`: what holds of all runs, whatever
  versions clients send.
- `Discipline.dfy`: what holds of a row on which a run is *honest*: no update or transition of
  that row that passes its checks expects a version ahead of the one the server read. Requests
  on other rows may do what they like. Clients that send versions they have seen are honest
  (`Discipline.SeenVersionsAreHonest`; the shipped client sends the version of a record it has
  loaded, `frontend/src/stores/factory.ts:19`), and a server that rejects versions ahead of its
  read would make every run honest. Of all runs the module says exactly which are serializable
  in commit order.
- `Text.dfy`: laws of trimming, capitals, validation and the status graphs.
- `Effects.dfy`: what the steps of `Protocol` mean, said of rows, revisions, audit entries and
  replies and not by way of the functions that compute them: where a commit's row comes from and
  what it changes, what is recorded and answered, and why a request fails, as if-and-only-ifs.
- `Binding.dfy`: which requests the handlers let through (`backend/internal/dto`), and the seeded
  accounts.
- `Columns.dfy`: what the handlers let through fits the columns it is stored in.
- `Limits.dfy`: why honesty is needed, what can still change a final decision, and how far
  deletion is guarded, as if-and-only-ifs.
- `Services.dfy`: the repository and the services as classes that update their state in place.
  Each service method leaves a run of `Protocol` that goes on from the run it found, with its
  own request carried through to the outcome it returns; other requests may take steps wherever
  `Yield` is called.
- `Seeding.dfy`: filling the tables, which establishes what the runs need at their start.
- `Restart.dfy`: when a server that has been running can be seeded, and so started, again.
- `RateLimit.dfy`, `Catalog.dfy`: the limiter; paging and counting.

## Findings

- The repository's README says that the final statuses cannot be overwritten. The code compares
  the stored version with the client's `ExpectedVersion`, never with the version it read. A
  request whose expected version is *ahead* of the one it read can therefore wait until another
  request finalises the decision and then overwrite it. `Limits.AFinalDecisionIsOverwritten` is
  such a run, step by step, of a freshly seeded server with its own accounts and with request
  bodies that it accepts, and `Limits.OverwritesFinalIffAhead` proves that this is possible for
  exactly those requests. Only requests checked before the decision became final can do it:
  `Limits.FinalIsTouchableIffThreatened` says which they are, and decisions that are final when
  the server starts never change (`Limits.FinalFromStartStands`). Rejecting
  `ExpectedVersion > current.Version` after the read would make every run honest and so close
  the gap.
- A decision's deletion checks the status and deletes in two steps without a version guard:
  `Limits.DeleteCanHitFinal` shows that every deletion that has passed its check on a draft
  can still delete the final decision made of it in between. In a run honest on it, it does so exactly
  if a finalisation commits between its check and its delete
  (`Limits.DeletesFinalIffFinalisedBetween`), in any run exactly if one does that no later update
  overwrites (`Limits.DeletesFinalIffMoveStands`).
- Seeding looks for live rows, but the unique index on codes also holds soft-deleted ones. Once
  all bridges, all inspections or all defects have been deleted, which an admin can do, the
  server refuses to start again: `Restart.RestartCanFail` gives such runs and
  `Restart.RestartsIffLive` the exact condition. The decisions never cause this.
- Page offsets are computed in 64 bits. `Catalog.PageIsItsPart` says exactly which page numbers
  return rows that are not the ones the page's metadata announces; page 92233720368547760 of
  size 100 is one, on every table with a matching row (`Catalog.WrappingPageIsWrong`).
- A shared counter that fails in mid-minute lets a client have twice the limit, and never more.
  `RateLimit.FallbackBound` says exactly when a client gets more than the limit, and
  `RateLimit.FallbackBoundIsReached` gives a case of twice the limit.
- A write need not have the effect of its request executed in one go: a transition stores the
  fields it read, a plain update the status it read. `Discipline.SerializableIffUndisturbed`
  says exactly which runs have the tables of a serial execution in commit order; those in which
  a final decision is overwritten do not (`Limits.OverwriteIsNotSerial`).

## Model

| member | source | states |
|---|---|---|
| Domain.DecisionEdges | backend/internal/constants/status.go:50-60 | a decision can move only from draft to observe, restrict or urgent, and nowhere from those |
| Text.TransitionsAreEdges | backend/internal/constants/status.go:28-60 | each graph has exactly its listed edges |
| Text.TrimSplits | backend/internal/service/bridge_asset.go:48-55 | trimming takes white space off both ends and leaves none there |
| Text.TrimIsUnique | backend/internal/service/bridge_asset.go:48-55 | whatever is left when white space has been taken off both ends is the trimmed text |
| Text.CapitalsInPlace | backend/internal/service/bridge_asset.go:48-55 | each small letter becomes the capital in its place and nothing else changes |
| Text.ValidIffComplete | backend/internal/service/bridge_asset.go:129-134 | fields are accepted exactly if code, name, facility and owner, and for a decision evidence and related code, are more than white space |
| Text.StoringTwice | backend/internal/service/bridge_asset.go:72-83 | storing stored fields again changes nothing |
| Services.Repository.Get | backend/internal/repository/priority_decision.go:52-58 | reads see live rows only; the row, without the revisions that the second query fetches |
| Services.Repository.Create | backend/internal/repository/base.go:55-57 | a plain insert is one transaction, refused exactly when the code is taken, also by a soft-deleted row |
| Services.Repository.CreateWithRevision | backend/internal/repository/priority_decision.go:59-68 | row and first revision are stored together or not at all |
| Services.Repository.Update | backend/internal/repository/base.go:59-70 | replaces a live row at the expected version, keeping id, code, creation time and deletion mark, or reports a version conflict and writes nothing |
| Services.Repository.UpdateWithRevision | backend/internal/repository/priority_decision.go:69-84 | the same with one revision appended in the same transaction, rolled back if the index refuses it; the preparer is kept |
| Services.Repository.InsertRevision | backend/internal/model/priority_decision.go:32-43 | a revision enters the chain unless its (decision, version) pair is there already |
| Services.Repository.Delete | backend/internal/repository/base.go:72-81 | marks a live row deleted and leaves revisions alone |
| Services.Repository.Append | backend/internal/service/security.go:58-73 | appends one audit entry, with defaults for actor and request id, or nothing; refuses an entry without an action |
| Services.EditDraft | backend/internal/service/priority_decision.go:75-100 | the checks of a draft update, in order, and the edited record and revision |
| Services.MoveDecision | backend/internal/service/priority_decision.go:113-130 | the checks of a finalisation, in order, and the moved record and revision |
| Services.EditEntity | backend/internal/service/defect_finding.go:69-84 | the check and edits of a plain update |
| Services.MoveEntity | backend/internal/service/defect_finding.go:97-104 | the check and edits of a plain transition |
| Services.Backend.CreateDecision | backend/internal/service/priority_decision.go:43-68 | under any interference takes the protocol's steps of a creation and returns their outcome |
| Services.Backend.UpdateDecision | backend/internal/service/priority_decision.go:70-106 | under any interference takes the protocol's steps of an update: read and check, guarded write with revision, audit whose failure is ignored, read back |
| Services.Backend.TransitionDecision | backend/internal/service/priority_decision.go:108-138 | under any interference takes the protocol's steps of a transition, an audit failure being reported after the commit |
| Services.Backend.DeleteDecision | backend/internal/service/priority_decision.go:140-152 | under any interference takes the protocol's steps of a deletion, check and delete being separate |
| Services.Backend.CreateEntity | backend/internal/service/bridge_asset.go:42-62 | as for decisions, with the stored item returned without a second read |
| Services.Backend.UpdateEntity | backend/internal/service/bridge_asset.go:64-90 | as for decisions, without status, owner and revision |
| Services.Backend.TransitionEntity | backend/internal/service/inspection_round.go:92-112 | as for decisions, without role and separation of duty |
| Services.Backend.DeleteEntity | backend/internal/service/bridge_asset.go:114-123 | as for decisions, without the status check |
| Services.LegalTraceIsRun | backend/internal/service/priority_decision.go:70-138 | what the service methods leave behind is a run, so every statement about runs holds of it |
| Services.ServedChainsAgree | backend/internal/repository/priority_decision.go:59-84 | at any moment of serving, the stored chains agree with the stored rows |
| Seeding.SeedTable | backend/internal/database/database.go:128-253 | does nothing if a row is live; otherwise stores all items, decisions with their revisions, under new keys, or none; storage faults aside it succeeds exactly if a row is live or the unique indexes, soft-deleted rows included, admit all items |
| Seeding.Seed | backend/internal/database/database.go:107-123 | fills the tables in order up to the first failure, keeps the chains, and storage faults aside succeeds exactly if every table can be seeded |
| Seeding.SeedIsChainIffWell | backend/internal/database/database.go:212-246 | the seed loop's revisions form a chain for exactly drafts of version 1 and finals of version 2 |
| Seeding.Boot | backend/internal/database/database.go:64-123 | on an empty database starts a run from exactly the twelve shipped rows and their revisions; only a storage fault keeps it from starting |
| Seeding.ShippedRowIs | backend/internal/database/database.go:133-227 | the plain shipped rows are at version 1 with statuses that follow the graph from the initial one; the decisions are a draft at version 1 and two final ones at version 2, prepared by the operator |
| Seeding.ShippedRevisions | backend/internal/database/database.go:234-246 | the shipped draft has one revision and the shipped final decisions two, with their actor, reason, request id and snapshot |
| Seeding.SeededDraftsThenFinal | backend/internal/database/database.go:212-246 | every run from seeded tables that is honest on a decision keeps its revision statuses at draft, ..., draft and then at most one final |
| Restart.RestartsIffLive | backend/internal/database/database.go:128-209 | after any run of a server that has ever been seeded, seeding can succeed again exactly if there is a live bridge, a live inspection and a live defect |
| Restart.RestartCanFail | backend/internal/database/database.go:128-209 | for each of these tables there is a run of a freshly seeded server, of admin deletions only, after which its seeding is refused |
| Restart.StockedStays | backend/internal/model/base.go:13 | a run keeps the first shipped code of every table taken, and one shipped final decision live |
| Restart.ShippedCodesDiffer | backend/internal/database/database.go:128-227 | no two shipped rows of a table have the same code |
| Invariants.Always | backend/internal/repository/priority_decision.go:59-84 | in every reachable state the table is the replay of legal commits, chains agree with rows and every request's position fits the table |
| Invariants.TransactIsLegal | backend/internal/repository/priority_decision.go:69-84 | a transaction that commits changes one row and, for a decision, its chain, as a legal commit does |
| Guarantees.ChainAgrees | backend/internal/service/priority_decision.go:165-176 | a decision's revisions are versions 1..n, n is the row's version, the last one's status, evidence and snapshot are the row's |
| Guarantees.ReplyChainCoversRow | backend/internal/repository/priority_decision.go:52-58 | revisions fetched in a second query, however late, are versions 1..m and hold the row read first in the place of its version |
| Guarantees.HistoryIsAppendOnly | backend/internal/model/priority_decision.go:29-35 | along any run revision lists only grow at the end and a row's code, preparer and creation time never change |
| Guarantees.NoSpuriousIndexFailure | backend/internal/model/priority_decision.go:34-35 | the unique (decision, version) index never turns down a transaction |
| Guarantees.FinalIffMoveStands | backend/internal/service/priority_decision.go:113-133 | a decision once draft is draft or final in any run, and final exactly if a transition committed since with no update after it |
| Invariants.IndexNeverRejects | backend/internal/repository/priority_decision.go:71-82 | an update commits exactly when the live row is at the expected version |
| Guarantees.DutiesAreSeparated | backend/internal/service/priority_decision.go:113-118 | every final revision is by a reviewer or admin other than the preparer, every draft by the preparer or an admin, over every interleaving |
| Guarantees.VersionArithmetic | backend/internal/repository/base.go:59-70 | a row's version is its seeded or created version plus its number of commits |
| Guarantees.SingleWinner | backend/internal/repository/base.go:60-68 | of all requests with the same row and expected version at most one ever commits, whatever it is answered |
| Guarantees.RejectionsWriteNothing | backend/internal/service/errors.go:5-15 | no step of a rejected request changes rows, revisions or audits |
| Guarantees.SuccessReplies | backend/internal/service/priority_decision.go:102-106 | a successful update or transition has committed and answers with a version of at least expected plus one |
| Effects.RepliesShowStoredRows | backend/internal/service/priority_decision.go:105-137 | a row that answers a creation, update or transition is the live stored row under its key at a moment no earlier than its commit, for a plain creation the row the commit stored |
| Effects.DeletionsAreDone | backend/internal/service/priority_decision.go:148-151 | a deletion reported done has committed, its row is and stays marked, and it is audited |
| Effects.StepFailsIffReason | backend/internal/service/priority_decision.go:43-152 | each step ends its request with a failure exactly if that reason holds in the tables at that moment, earlier checks having passed: not found, locked, not owner, invalid input, review role, separation of duty, invalid transition, duplicate code, version conflict, storage or audit fault |
| Effects.FailuresAreJustified | backend/internal/service/errors.go:5-15 | whatever failure a request is answered with, its reason held at a step of that request |
| Effects.InvalidInputIsIncomplete | backend/internal/service/priority_decision.go:158-163 | input is called invalid only if a needed text, or the code of the row read, is blank |
| Effects.CheckRefuses | backend/internal/service/priority_decision.go:75-122 | the checks give, in order, exactly the reasons stated of the row, the actor, the role, the texts and the edge |
| Guarantees.AuditFailureKeepsCommit | backend/internal/service/priority_decision.go:134-136 | an audit failure is reported for a request whose commit stays |
| Guarantees.StatusCountsConserved | backend/internal/repository/base.go:83-100 | each status bucket is its initial size plus the ledger of commits, over every run |
| Guarantees.AuditLogComplete | backend/internal/service/security.go:58-73 | every audit entry is the one its request's commit calls for, none is written twice, and audited plus owed flow is committed flow in whatever order entries land |
| Effects.AuditsTellOfCommits | backend/internal/service/security.go:58-73 | every audit entry has the actor, request id, action, states before and after and detail of a commit of its request |
| Effects.CommitIsTraced | backend/internal/service/priority_decision.go:70-138 | every commit read its row live at an earlier step, was accepted on that very row, and took place at a later one, changing its row as asked and nothing else: a transition status, version and update time only and keeping the fields read, an update the trimmed fields, a deletion the mark, a creation all initial columns |
| Effects.CommitsAreRecorded | backend/internal/service/priority_decision.go:165-176 | for every commit on a decision but a deletion the chain holds, at its version, a revision with its status, evidence, reason, actor, request id and full snapshot |
| Effects.RevisionsAreCommits | backend/internal/service/priority_decision.go:165-176 | every revision that was not there at the start records such a commit |
| Effects.StoredTextsAreComplete | backend/internal/service/priority_decision.go:158-163 | in any run every row whose fields a request has stored has all its needed texts |
| Effects.FieldsStay | backend/internal/service/priority_decision.go:123-131 | in a run honest on a row its business fields stay as they are while no update commits |
| Effects.FieldsAreOfLastUpdate | backend/internal/service/priority_decision.go:82-95 | ... and after an update they are its fields, trimmed, until the next |
| Effects.CodesStayUnique | backend/internal/model/base.go:13 | in every run no two rows of a table, live or deleted, have the same code |
| Columns.RowsFit | backend/internal/dto/priority_decision.go:7-20 | in runs of received requests no stored text is longer than its column |
| Columns.ReasonsFit | backend/internal/dto/common.go:25-29 | nor is the reason of any revision |
| Accounts.ExpectedVersionsIncrease | backend/internal/repository/base.go:59-70 | of two guarded commits on a row the later expected the larger version |
| Accounts.FreshIffNotAhead | backend/internal/service/priority_decision.go:95-101 | a commit replaces the very row it was computed from exactly if the expected version was not ahead of the one read |
| Accounts.LedgerIsRecount | backend/internal/repository/base.go:83-100 | recounting a bucket after any legal history gives what the ledger predicts |
| Accounts.PathIsWalk | backend/internal/constants/status.go:28-48 | the statuses left by a row's fresh commits walk the graph, whatever other rows' commits are |
| Discipline.SeenVersionsAreHonest | frontend/src/stores/factory.ts:16-19 | if the clients of a row send versions stored in it no later than the server's read, the run is honest on it |
| Discipline.StepIsAtomicIffUndisturbed | backend/internal/service/priority_decision.go:70-152 | in any run a committing step has the effect of executing its request in one go exactly if the row found has what the request relies on: a draft for a deletion, the status read for an update, the fields read and an allowed edge for a transition |
| Discipline.SerializableIffUndisturbed | backend/internal/service/priority_decision.go:70-152 | a run's tables are at every moment those of executing the committed requests one at a time in commit order if and only if each commit so far found what it relies on |
| Discipline.StepRefinesAtomic | backend/internal/service/priority_decision.go:70-152 | in honest runs each step, a decision deletion if it finds a draft, leaves the tables alone or has the effect of executing its request in one go on the tables as they stand |
| Discipline.FinalRefusesWrites | backend/internal/service/priority_decision.go:75-121 | executed in one go, every update or transition of a final decision is refused |
| Discipline.RefusalsRefineAtomic | backend/internal/service/priority_decision.go:70-152 | in any run a request refused by its checks or its transaction is refused by the one-go execution at that moment, and for the same reason unless it reports a version conflict on a row changed since it was read |
| Discipline.RunsAreSerializable | backend/internal/service/priority_decision.go:70-152 | the tables of an honest run whose decision deletions find drafts are those of executing the committed requests one at a time in commit order |
| Discipline.FinalIsForever | backend/internal/service/priority_decision.go:75-77 | in runs honest on a decision, whatever happens to other rows, its status, version, fields and revisions never change again once it is final |
| Discipline.DraftsThenFinal | backend/internal/constants/status.go:50-55 | in runs honest on a decision its revision statuses read draft, ..., draft and then at most one final |
| Discipline.StatusesWalkTheGraph | backend/internal/service/bridge_asset.go:64-112 | in runs honest on a row its statuses in version order are a walk in its graph from its origin, with stutters exactly at updates |
| Discipline.AuditFlowConserved | backend/internal/service/defect_finding.go:92-112 | in runs honest on a row, transition audits into a status less those out of it, plus what is owed, is the change of its status since the origin |
| Discipline.AuditsDetermineStatus | backend/internal/service/security.go:58-73 | in runs honest on a row, once all commits are audited the log alone determines its current status |
| Limits.OverwritesFinalIffAhead | backend/internal/service/priority_decision.go:119-133 | given an account that may edit the draft and one that may finalise it, a checked request on a draft has a continuation, of receivable requests of these accounts, in which it overwrites the decision once final exactly if its expected version is ahead of the one it read |
| Limits.AFinalDecisionIsOverwritten | backend/internal/service/priority_decision.go:119-133 | a literal run of six steps from the tables of a freshly seeded server, of receivable requests of its reviewer and its admin, in which a transition expecting a version ahead of the one read overwrites a final decision |
| Limits.OverwriteIsNotAtomic | backend/internal/service/priority_decision.go:119-133 | a step that overwrites a final decision does not have the effect of its request executed in one go, which is refused |
| Limits.OverwriteIsNotSerial | backend/internal/service/priority_decision.go:119-133 | no run in which a final decision is overwritten has the tables of a serial execution in commit order |
| Limits.FinalIsTouchableIffThreatened | backend/internal/service/priority_decision.go:75-151 | a final decision can still be changed or deleted in some continuation exactly if a request is past its checks on it and is a deletion or expects its present version |
| Limits.UnthreatenedFinalStands | backend/internal/service/priority_decision.go:75-151 | in any run a final decision without such a request keeps its whole row and its revisions, and no such request ever comes up |
| Limits.FinalFromStartStands | backend/internal/service/priority_decision.go:75-151 | in any run, whatever versions clients send, a decision that is final at the start never changes and is never deleted |
| Limits.DeleteCanHitFinal | backend/internal/service/priority_decision.go:140-151 | every deletion checked on a draft has a four-step continuation, with a receivable request of any account that may finalise, in which it deletes a final decision |
| Limits.DeletesFinalIffMoveStands | backend/internal/service/priority_decision.go:140-151 | in any run a deletion deletes a final decision exactly if a transition that no update follows is committed between its check and its delete |
| Limits.DeletesFinalIffFinalisedBetween | backend/internal/service/priority_decision.go:140-151 | in a run honest on the decision a deletion deletes it when final exactly if a finalisation commits between its check and its delete |
| RateLimit.Limiter.IncrementLocal | backend/internal/middleware/ratelimit.go:71-94 | the count is one plus the key's earlier local calls in that minute, eviction notwithstanding, and the map has at most 512 buckets or only this minute's keys |
| RateLimit.Limiter.CleanupLocal | backend/internal/middleware/ratelimit.go:85-94 | at 512 buckets or more drops exactly those of earlier minutes, below that none |
| RateLimit.Limiter.Increment | backend/internal/middleware/ratelimit.go:57-69 | a shared increment counts and answers, counts without an answer, or does not count |
| RateLimit.Limiter.Admit | backend/internal/middleware/ratelimit.go:37-55 | one attempt at the shared counter if enabled, one local call of the same key if it does not answer, the deciding count compared with the limit, and the rest of the limit as what remains |
| RateLimit.IncrementTracks | backend/internal/middleware/ratelimit.go:71-94 | a pruned map counts like the unbounded exact counter |
| RateLimit.AdmitsExactlyTheLimit | backend/internal/middleware/ratelimit.go:44-53 | exactly min(calls, limit) local calls of a key pass per minute |
| RateLimit.SpanBound | backend/internal/middleware/ratelimit.go:39-53 | a span of L seconds admits at most (ceil(L/60)+1) times the limit of local calls of a key |
| RateLimit.FallbackBound | backend/internal/middleware/ratelimit.go:40-43 | for any pattern of shared failures at most twice the limit passes per key and minute, and more than the limit exactly if the shared counter admitted some and these with the local calls exceed it |
| RateLimit.AdmittedIsSum | backend/internal/middleware/ratelimit.go:37-55 | what passes is what the shared counter admits, at most min(its calls, limit), plus exactly min(local calls, limit) |
| RateLimit.FallbackBoundIsReached | backend/internal/middleware/ratelimit.go:40-43 | there is a pattern for which exactly twice the limit passes |
| Catalog.BindPage | backend/internal/handler/system.go:149-159 | the handler's clamp, on whose results the repository's clamp is the identity |
| Catalog.PageIsItsPart | backend/internal/repository/base.go:29-47 | a page holds the rows its metadata announces exactly unless its 64-bit offset wraps to before the end of the result |
| Catalog.PageMetadata | backend/internal/repository/base.go:29-47 | page and size as the repository clamps them, and no more rows than the size |
| Catalog.WrapIsCongruent | backend/internal/repository/base.go:45 | the offset is the 64-bit signed number congruent to the product |
| Catalog.WrappingPageIsWrong | backend/internal/repository/base.go:44-46 | page 92233720368547760 of size 100 lists the wrong rows on every table with a match |
| Catalog.PagesPartition | backend/internal/repository/base.go:44-46 | pages 1..n in a row are the filtered rows, each once, by update time and id descending |
| Catalog.PagesCover | frontend/src/hooks/usePagination.ts:2 | the client shows at least one page, enough for all rows, and none that is not needed |
| Catalog.OrderIsUnique | backend/internal/repository/base.go:44 | the order by update time and id admits one arrangement of the rows |
| Catalog.OrderIsDescending | backend/internal/repository/base.go:44 | latest update first, of rows updated at the same time the larger key first |
| Catalog.CountByStatus | backend/internal/repository/base.go:83-100 | the map holds exactly the occurring statuses with their counts, and its values sum to the live rows |
| Catalog.GroupByIsGrouping | backend/internal/repository/base.go:83-100 | every table has the grouping that the scan takes: each occurring status once, with its count |
| Catalog.BucketIsListTotal | backend/internal/repository/base.go:36-42 | with no search term the list's total is the bucket of the trimmed status, or of all rows if that is empty |
| Catalog.ListMatchesBoth | backend/internal/repository/base.go:32-42 | every row listed matches the search and has the status asked for, and the total is the number of rows that do |
| Catalog.RecountFollowsLedger | backend/internal/repository/base.go:83-100 | the recount at any moment of a run is the first count plus the ledger |

## Left out

- HTTP, JSON, JWT, bcrypt, SQL and Redis drivers: a transaction is one atomic step and the shared counter an exact counter that may fail.
- Serialized snapshots are records of the business fields, without id and timestamps; key order and encoding are not modelled.
- Services.Repository.Get: returns the row only; what the second query, for the revisions, can find is stated by `Guarantees.ReplyChainCoversRow`.
- Versions are unbounded numbers: the wrap after 2^64 commits on one row is not modelled.
- The text functions know the Latin-1 white space and ASCII letters; other Unicode classes are not modelled.
- The list's text search is an arbitrary predicate on rows; LIKE patterns are not modelled.
- A commit whose acknowledgement is lost on the way from the database is not modelled.
- Services.Backend.Yield: its body does nothing; callers know only its contract, which allows the run to go on by any steps of other requests.
- Discipline.RunsAreSerializable: assumes honest expected versions and decision deletions that find a draft; the exact condition, over all runs, is `Discipline.SerializableIffUndisturbed`.
- RateLimit.Limiter.IncrementLocal: assumes a clock that does not go back, as a clock that does can revive an evicted minute.
- Audit detail texts are given without the entity's Chinese name; the services are modelled for all request bodies, also those that `Binding.Receivable` excludes.
- The business fields of the shipped rows are a parameter, and the rows of all tables carry one clock reading.
- Users, passwords and tokens: the seeded accounts are a constant, and a request carries the name and role of its account.
- The expiry of shared counters after two minutes, which no increment of the same minute can observe.
- Paging of the audit log: ordered by creation time alone, so the code does not determine its pages.
- Configuration, request ids, headers and the Vue frontend: single-branch checks and presentation.
