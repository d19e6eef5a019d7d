# SShark in Dafny

SShark indexes the public SSH and GPG keys that people publish at GitHub and GitLab and lets
anyone search them. This project models the three parts of it where correctness is least
obvious and proves what they promise.

**Search.** A user's query is lexed, parsed, compiled to a WHERE clause with numbered
placeholders and spliced into a larger statement. `QueryLexer`, `QueryAst`, `QueryParser` and
`QueryRoundTrip` cover the language; `Builder` and `Leaves` the compiler; `Sql` is an
independent reader and three-valued evaluator of the SQL text the compiler can emit (AND binds
tighter than OR, section 4.1.6 of the PostgreSQL documentation; LIKE, section 9.7.1); `Compile`,
`ReadBack`, `Placeholders`, `Meaning` and `Statement` show that the text, read back and evaluated,
selects the rows the query means; `Records` says the same of what is stored, a key with its
source and metadata, each field name standing for its part. `Wildcard` says when a LIKE pattern and the wildcard its user
wrote agree. `BasicQuery`, `TermTokens`, `BasicShape`, `BasicSearch` and `Search` do the same for
basic search, which prints a query in the same language and parses it again.

**Background work.** `Tasks` is the tasks table with its partial unique index. `Protocol` is a
state machine over single SQL statements in which any number of enqueuers and workers
interleave, calls get lost or take effect with their reply lost, and processes die. `Runs` says
which operations can execute at once, `Orphans` which step leaves a task that nothing will
settle, `Finality` when a settled task is final, all in every reachable state; `Traces` shows
what the protocol does not promise. `Queue` and `Reports` are the imperative code, tied step by
step to the machine.

**Reconciliation.** `KeyStore`, `Sync` and `Scrape` make stored keys follow fetched ones under
any pattern of failing calls; `Sources`, `Ownership` and `Refresh` rebuild who owns what;
`Revoke` deletes at the provider before it deletes locally; `Walk` and `Crawler` page through
tables that change underneath.

A call that can fail takes its failures from a script that the theorems quantify over. A process
that can die takes the point of its death from one too. Clocks are logical. UUIDs are numbers,
and new ones are unused.

## What the code does otherwise than it says

- `internal/domain/tasks/entity.go` calls a settled task one that will not change again. A failed
  task runs again when its job is retried (`Traces.FailedIsNotFinal`), and so does a succeeded
  one whose worker dies before returning (`Traces.SucceededCanRunAgain`). A settled task will not
  change again exactly when its enqueuer has nothing left to settle and its job is over, or is
  returning with no attempt left; or when it is between attempts and its work is held by another
  task that is out in the same way but was never settled (`Finality.FinalExactly`). It can be set
  running again exactly when its job can have another attempt and no such task holds its work
  (`Finality.RunsAgainExactly`).
- When the job queue takes a job but its reply is lost, the enqueuer settles a task whose job will
  run. The same work can then be asked for again and two operations for it execute at once
  (`Traces.TwoAtOnce`). A second begins only that way (`Runs.SecondBeginsExactly`).
- An attempt turned away by the unique index need not have lost to a newer request: the active
  twin can be the older task (`Traces.TurnedAwayByOlder`).
- A request that is refused as a duplicate can still come back without a task, because the
  winner may settle before it is looked up (`Traces.WinnerCanBeGone`).
- One lost Finish leaves its task running for good when the operation had succeeded, on any
  attempt, and when it had failed on the last (`Orphans.LostFinishExactly`,
  `Traces.LostFinishOrphans`). No request for the same work is accepted again
  (`Orphans.OrphanBlocks`). `Orphans.OrphansExactly` lists every step that does this.
- Basic search escapes every special character but the backslash. No term can change the shape of
  the query for all that (`BasicShape.ShapeIsFixed`), but a term with a backslash, a star, an
  underscore or a blank does not search for itself (`BasicSearch.SubstringExactly`).
- A revocation can drop the local row while the provider still lists the key. A 404, to the
  listing of a user's keys or to the deletion, is taken for the key's absence; only the first page
  of keys is looked at, so that a key listed after a hundred others is taken for absent; and of
  two listed keys that match, by fingerprint and by recorded id, one is deleted. These are all the
  ways (`Revoke.Service.Revoke`, `Revoke.LeavesExactly`).
- A fingerprint stored under one key type keeps the same fingerprint of the other type out of the
  source, since both types share one index (`Sync.ReconciledExactly`).
- When two sources of a provider share a username, which of them a profile comes to own is not
  determined (`Ownership.DeterminedExactly`).
- A revocation that is retried after its local delete went through reports the key as unknown,
  as it does of any key that is not stored and of no other (`Revoke.Service.Revoke`).
- A listing of stored keys that breaks off because the connection is lost is taken for the whole:
  the rows not read count as unknown, and are neither updated nor removed
  (`KeyStore.KeyStore.Search`, `Sync.Scraper.SyncKeys`).

## Model

| member | source | states |
|---|---|---|
| QueryLexer.LexIsLexByTable | internal/domain/query/lexer.go:6-21 | trying the ordered rules until one matches is the same, on every input, as deciding by the first character |
| QueryLexer.LexIsFaithful | internal/domain/query/lexer.go:6-21 | the tokens of an input spell it exactly, and each token's text fits its rule |
| QueryLexer.ShadowedRules | internal/domain/query/lexer.go:12-14 | the rules At and Colon never fire; their characters always come out as ValueChar |
| QueryLexer.LexAppend | internal/domain/query/lexer.go:6-21 | lexing goes piece by piece wherever no token can straddle the cut |
| QueryLexer.ElideSpellsStrip | internal/domain/query/parser.go:10-13 | what survives elision spells the input without its blanks, inside braces too |
| QueryLexer.OneCharacter | internal/domain/query/lexer.go:6-21 | which characters begin an identifier, a number or a blank, and which are value characters, each lexing alone |
| QueryLexer.NextCharacter | internal/domain/query/lexer.go:8-10 | which characters go on an identifier or a number, and which a backslash escapes |
| QueryAst.Unescape | internal/domain/query/ast.go:53-69 | the loop computes the text with each escaping backslash dropped and the character after it kept |
| QueryAst.HasWildcard | internal/domain/query/ast.go:35-51 | the loop finds a star exactly when one stands unescaped |
| QueryAst.ValueTextLexes | internal/domain/query/ast.go:27-29 | a value text, however its tokens were glued, lexes again to value tokens spelling it |
| QueryRoundTrip.ParsePrint | internal/domain/query/ast.go:3-29 | every well-formed tree, printed with any blank padding, parses back to itself with nothing left over |
| QueryRoundTrip.PrintIsInjective | internal/domain/query/ast.go:3-29 | two trees that print alike are one tree: the grammar is unambiguous |
| QueryRoundTrip.ParseIsSound | internal/domain/query/parser.go:15-21 | an accepted input is, blanks aside, the print of the tree it gives, and that tree is well formed |
| QueryRoundTrip.ParseIsStable | internal/domain/query/parser.go:15-21 | printing the parse of an input and parsing again gives the same tree |
| QueryRoundTrip.EmptyExactly | internal/domain/query/parser.go:15-21 | an input asks for nothing in particular exactly when it is all blanks |
| Builder.BuildContext.AddArg | internal/infra/query/postgres/builder.go:43-48 | appends the argument and names it by its position |
| Builder.BuildContext.BuildOrExpr | internal/infra/query/postgres/builder.go:50-74 | emits the clause of the specification and appends exactly its arguments, failed parts included |
| Builder.BuildContext.BuildAndExpr | internal/infra/query/postgres/builder.go:76-100 | the same for a conjunction |
| Builder.BuildContext.BuildUnary | internal/infra/query/postgres/builder.go:102-112 | the same for a leaf or a subexpression |
| Builder.BuildContext.BuildField | internal/infra/query/postgres/builder.go:114-132 | an unmapped field fails by its name; a mapped one emits its condition |
| Builder.BuildContext.BuildScalarCondition | internal/infra/query/postgres/builder.go:134-143 | emits LIKE or equality on the column and binds the value, stars turned to percent signs |
| Builder.BuildContext.BuildArrayCondition | internal/infra/query/postgres/builder.go:145-154 | emits the test on the array's elements and binds the value |
| Builder.Build | internal/infra/query/postgres/builder.go:18-35 | no query gives no clause; a failure gives no arguments; else clause and arguments of the specification |
| Leaves.EmitOrReports | internal/infra/query/postgres/builder.go:50-132 | building fails exactly when some leaf is unmapped, naming the first; the arguments are the leaves' values in reading order |
| Compile.ShippedFieldsAreGood | internal/infra/query/postgres/fields.go:9-33 | every column of both shipped field maps reads back as one column name |
| Compile.PrimaryLeaf | internal/infra/query/postgres/builder.go:134-154 | each of the four leaf conditions, scanned and parsed, is the one condition it is meant to be, whatever follows it |
| ReadBack.PrimaryOr | internal/infra/query/postgres/builder.go:50-100 | the clause of any query, read with SQL precedence, is one primary whose condition mirrors the query tree |
| Placeholders.ParamsOr | internal/infra/query/postgres/builder.go:43-48 | the clause holds the placeholders from $n on, once each, in the leaves' reading order |
| Meaning.EvalOr | internal/infra/query/postgres/builder.go:50-154 | under three-valued truth over nullable columns, the compiled condition is true on exactly the rows the query means |
| Meaning.SameOr | internal/infra/query/postgres/builder.go:124-154 | queries all of whose leaves are faithful, having no bare star or nothing beside it that LIKE reads otherwise, mean of a row what their user wrote |
| Wildcard.GlobRefinesLike | internal/infra/query/postgres/builder.go:134-154 | whatever the wildcard reading matches, the LIKE pattern matches, if no backslash survives unescaping |
| Wildcard.AgreeExactly | internal/infra/query/postgres/builder.go:134-154 | pattern and wildcard match the same strings exactly when no underscore, literal star or backslash is asked for |
| Wildcard.LeafExactly | internal/infra/query/postgres/builder.go:124-154 | a leaf tests on every text what its user wrote exactly when it has no bare star, or no underscore, literal star or backslash beside it |
| Statement.SearchWithQuery | internal/infra/publickeys/postgres/repository.go:146-188 | counts with the clause spliced after the key type, then pages with the two placeholders after the clause's own |
| Statement.ReadSpliced | internal/infra/publickeys/postgres/repository.go:153-158 | the splice after AND keeps the clause one conjunct beside the key type |
| Statement.SearchIsExact | internal/infra/publickeys/postgres/repository.go:146-205 | for every compiled query and every table, the count is of, and the page is from, exactly the rows of the key type the query means |
| Statement.SearchIsAsWritten | internal/infra/publickeys/postgres/repository.go:146-205 | for faithful queries those rows are the ones the query describes as its user wrote it |
| Records.SshNames | internal/infra/query/postgres/fields.go:9-19 | a leaf of each of the nine SSH names holds of a joined row exactly when it accepts the part so named: the key's id or fingerprint, its metadata's algorithm, comment or size, its source's username, provider, user id or address |
| Records.GpgNames | internal/infra/query/postgres/fields.go:22-33 | the same for the ten GPG names, user ids and capabilities by any of their elements |
| Records.RecordsExactly | internal/infra/publickeys/postgres/repository.go:146-205 | for every compiled query and all that is stored, the count is of, and the page is from, exactly the records of the key type whose named parts the query accepts, as compiled or, for faithful queries, as written |
| BasicQuery.BuildBasicQuery | api/public/v1/sshsearch.go:136-151 | prints one braced part for each field, joined by the or operator |
| BasicQuery.UnescapeEscape | api/public/v1/sshsearch.go:153-166 | unescaping undoes escaping on every text without a backslash |
| TermTokens.TermIsGuarded | api/public/v1/sshsearch.go:153-166 | any escaped term lexes, if at all, to tokens in which a special one always stands between value tokens |
| BasicShape.ShapeIsFixed | api/public/v1/sshsearch.go:136-166 | for every term and every list of identifiers the printed query parses to one leaf a field with the term as value, or not at all |
| BasicShape.TameAccepted | api/public/v1/sshsearch.go:153-166 | a term without a backslash is refused only when it does not lex |
| BasicSearch.SubstringExactly | api/public/v1/sshsearch.go:136-166 | of the terms accepted, a basic search leaf means "contains the term" exactly for those without backslash, star, underscore and blank |
| BasicSearch.BasicFinds | api/public/v1/sshsearch.go:136-151 | for such a term the query holds of a row exactly when some listed field, or an element of a listed array field, contains it |
| BasicSearch.BasicPatternsOk | api/public/v1/sshsearch.go:136-151 | the server takes every pattern a basic search sends |
| Search.SearchSSHKeys | api/public/v1/sshsearch.go:22-134 | bad queries and names that are no field are refused; any other request answers with the count and the page, by default the first ten, of the stored keys whose named parts its query accepts, as its user wrote it where its leaves are faithful; of a pattern with a wildcard that ends in an unpaired backslash nothing is said |
| Search.BasicSearchAnswer | api/public/v1/sshsearch.go:64-100 | a basic search finds the keys with the term in one of the parts its fields name, and refuses the term only when it does not lex |
| Search.DefaultSearchAnswer | api/public/v1/sshsearch.go:64-100 | one that names no field finds the keys whose source's username or provider contains the term |
| Search.NameIsIdent | internal/infra/query/postgres/fields.go:9-33 | every field name lexes as one identifier, so each can be asked for |
| Tasks.PutRefused | db/migrations/000011_tasks_dedup.up.sql:13-15 | the index refuses a write exactly when the row becomes active while another row is doing the same work |
| Tasks.CreateRefused | internal/infra/tasks/postgres/repository.go:32-55 | a task is refused exactly when the same user has the same work active |
| Tasks.MarkRefused | internal/infra/tasks/postgres/repository.go:138-147 | marking is refused exactly when the task is settled and another does its work; never for an active task |
| Tasks.SettlingGoesThrough | internal/infra/tasks/postgres/repository.go:149-184 | the index never refuses a report or a finish |
| Tasks.TaskTable.Create | internal/infra/tasks/postgres/repository.go:32-55 | a lost or refused insert changes nothing; another adds the row, pending, queued, at nothing of its total, whether or not its reply arrives; refused exactly when the work is active |
| Tasks.TaskTable.FindActiveByDedupKey | internal/infra/tasks/postgres/repository.go:57-66 | unless the call fails, finds an active task for the work whenever there is one |
| Tasks.TaskTable.MarkRunning | internal/infra/tasks/postgres/repository.go:138-147 | sets running and the first start time only, whether or not its reply arrives, or changes nothing |
| Tasks.TaskTable.ReportProgress | internal/infra/tasks/postgres/repository.go:149-161 | writes progress, total and message, no message for an empty one, and nothing else, or changes nothing |
| Tasks.TaskTable.Finish | internal/infra/tasks/postgres/repository.go:163-184 | settles the row as succeeded with just the result, or as failed with just the error, at the time, and leaves the rest, or changes nothing |
| Protocol.ReachableInv | internal/infra/jobs/jobs.go:76-114 | in every reachable state the index holds and each row's status fits the phase of the one process responsible for it |
| Runs.OneAtATime | internal/infra/jobs/jobs.go:76-114 | in every reachable state two operations for one user and work execute at once only if one of them had its row settled by an enqueuer whose Insert took effect unheard |
| Runs.RefusalExactly | internal/infra/jobs/jobs.go:83-85 | in every reachable state an attempt is turned away exactly when its task is settled and an active twin exists; then no operation runs and no row changes |
| Runs.SecondBeginsExactly | internal/infra/jobs/queue.go:115-129 | while one operation executes, and no third task does the work, a second begins exactly when the first had its row settled under it |
| Orphans.OrphansExactly | internal/infra/jobs/jobs.go:76-114 | in every reachable state a step leaves its task orphaned exactly when it is one of six: an unheard Create, a dying enqueuer, a lost Settle, a lost or unheard Mark, a death or a return, each in the phases given; and it orphans no other task |
| Orphans.LostFinishExactly | internal/infra/jobs/jobs.go:99-113 | a lost Finish orphans, once the job returns, exactly after success or on the last attempt, the enqueuer not having settled the row |
| Orphans.OrphanHasCause | internal/infra/jobs/jobs.go:76-114 | on every run to an orphan one of those steps was taken on it |
| Orphans.NoOrphans | internal/infra/jobs/queue.go:115-129 | where no call is lost or unheard and nobody dies there is no orphan; where only Finish can be lost, a lost Finish made it |
| Orphans.OrphanBlocks | internal/infra/jobs/queue.go:123-129 | an orphan is never settled, and no request for its work is accepted again |
| Finality.FinalExactly | internal/domain/tasks/entity.go:22-25 | in every reachable state a settled task never changes again on any run exactly when it is out (nothing owed, its job over or returning with no attempt left), or between attempts, nothing owed, with its work held by an active task that is out |
| Finality.RunsAgainExactly | internal/infra/jobs/jobs.go:70-75 | in every reachable state a settled task can be running again on some run exactly when its job waits, is picked up, or is under way with an attempt left, and no active task that is out holds its work |
| Runs.HistoryHolds | internal/infra/tasks/postgres/repository.go:138-184 | in every reachable state a row has the times, result and error its status allows: a pending one none, a settled one just its own, a running one perhaps those of an attempt before; start and finish are in order unless an unaware enqueuer settled the row |
| Runs.RunKeeps | internal/infra/tasks/postgres/repository.go:138-184 | over every run the first start time, the creation time and the work are fixed; for success to be undone a worker must have died on the task or its enqueuer been unaware of the job |
| Runs.AttemptsBounded | internal/infra/jobs/jobs.go:70-75 | on every run a queued job is attempted no oftener than its budget, whatever becomes of its workers |
| Traces.FailedIsNotFinal | internal/infra/jobs/jobs.go:70-75 | a failed task can be running again, with its old error and finish time and its first start time |
| Traces.TurnedAwayByOlder | internal/infra/jobs/jobs.go:83-85 | the twin an attempt is turned away by can be the older task |
| Traces.WinnerCanBeGone | internal/infra/jobs/queue.go:115-119 | a refused request can find no active task |
| Traces.SucceededCanRunAgain | internal/infra/jobs/jobs.go:109-113 | a worker dying after recording success has the task run again |
| Traces.LostFinishOrphans | internal/infra/jobs/jobs.go:109-111 | one lost Finish after a success orphans a task with attempts left |
| Traces.TwoAtOnce | internal/infra/jobs/queue.go:115-129 | an Insert that took effect unheard lets two operations for the same work execute at once |
| Queue.Queue.Enqueue | internal/infra/jobs/queue.go:97-130 | whatever others do between its statements, whichever calls fail and whichever replies are lost, takes just these protocol steps, and answers accepted, refused, or with the one active task, if any |
| Queue.RevokeKeys | internal/infra/jobs/queue.go:84-91 | revocations are the same work exactly when of the same key, and never a refresh |
| Queue.Queue.EnqueueRefresh | internal/infra/jobs/queue.go:76-80 | the whole of that for a refresh, all of a user's refreshes being one work; accepted when all the user has under way is revocations and the calls are answered |
| Queue.Queue.EnqueueRevoke | internal/infra/jobs/queue.go:84-91 | the whole of that for a revocation; accepted when all the user has under way is refreshes and revocations of other keys and the calls are answered |
| Queue.Queue.Run | internal/infra/jobs/jobs.go:76-114 | an attempt takes just these protocol steps and errs exactly when not marked or its operation failed; the row it leaves has, field by field, the latest report that went through and, if its end did, the result encoded or the error and that status, and is otherwise as it was |
| Queue.CompleteAtTheEnd | internal/app/keyops/service.go:87-120 | a success whose last report and end were recorded shows progress equal to total; the attempt began again at 0 and kept the first start time |
| Reports.ReportsClimb | internal/app/keyops/service.go:160-205 | what a refresh and a revocation report never decreases, stays within one total, starts at 0 and ends at the total |
| Reports.ShownClimbs | internal/infra/tasks/postgres/repository.go:149-161 | whichever reports are lost, what the row shows after the attempt's first recorded report only climbs, within the total |
| Reports.RevocationShows | internal/app/keyops/service.go:160-205 | a revocation that stops early shows, once a report is recorded, progress that climbs within three steps and never one it did not get to |
| KeyStore.KeyStore.Search | internal/infra/publickeys/postgres/repository.go:54-91 | lists distinct matching rows, all of them unless the limit is reached, up to where the listing breaks off unnoticed, if it does |
| KeyStore.KeyStore.Create | internal/infra/publickeys/postgres/repository.go:207-232 | adds the row unless the call fails or the source has the fingerprint under either type |
| KeyStore.KeyStore.Update | internal/infra/publickeys/postgres/repository.go:264-293 | replaces content and metadata, keeping the recorded provider id when none is given; refused exactly when another row of the source has the new fingerprint |
| KeyStore.KeyStore.Delete | internal/infra/publickeys/postgres/repository.go:295-304 | removes the row or changes nothing |
| KeyStore.AllListed | internal/infra/scraper/service.go:336-340 | with at most as many rows as the limit, a search that does not break off lists every one |
| Sync.Scraper.UpdateExistingKey | internal/infra/scraper/service.go:388-427 | writes only when the data, or the algorithm and comment or expiry of metadata it holds, differ, and then all of the fetched key's content; the snapshot changes even when the write fails |
| Sync.Scraper.CreateNewKey | internal/infra/scraper/service.go:431-471 | adds one new row with the content of the fetched key, or nothing |
| Sync.NeedsExactly | internal/infra/scraper/service.go:481-524 | a key needs an update exactly when data, algorithm, or comment (SSH) or expiry (GPG) disagree, metadata that is missing disagreeing with nothing |
| Sync.Scraper.SyncKeys | internal/infra/scraper/service.go:329-384 | under any failures counts exactly the inserts, updates and deletes that went through, which are the rows added and removed and, with distinct fetched keys, those whose content changed; removes only unlisted keys of the source and type, adds only fetched keys the source lacked, field by field as fetched, writes into a stored key only the content of a fetched key of its fingerprint, and leaves one alone that all such keys agree with; if nothing fails, the stored fingerprints match the fetched ones and, those being distinct, every stored row agrees with its fetched key in data, algorithm and comment or expiry, and a second identical call changes and reports nothing |
| Sync.PassReconciles | internal/infra/scraper/service.go:355-383 | the two loops together do no more than that, whatever failed |
| Sync.ReconciledExactly | db/migrations/000012_scope_fingerprint_to_source.up.sql:12-14 | stored and fetched fingerprints are then equal exactly when the other key type holds none of the fetched |
| Scrape.UserScraper.GetOrCreateSource | internal/infra/scraper/service.go:285-327 | finds or creates the source of the user id, touching no other source and no owner |
| Scrape.UserScraper.ProcessUser | internal/infra/scraper/service.go:223-283 | a stored key goes only on a successful non-empty fetch of its type that lacks it; a failed or empty fetch leaves the type's rows alone; the counts are the statements that went through and the rows of both types gained, lost and, with distinct keys, changed; if nothing fails, the source's stored fingerprints mirror what was listed and distinct keys' content agrees with it |
| Refresh.Service.Refresh | internal/app/keyops/service.go:77-121 | the summary's counts are the sum of the accounts' counts, each what the store gained, lost and changed over that account, and are the statements that went through; the reports are the expected ones; if nothing failed the profile owns what its accounts resolve to |
| Sources.SourceStore.GetByProviderAndUsername | internal/infra/sources/postgres/repository.go:76-101 | finds some source of that name when there is one |
| Sources.SourceStore.GetByProviderAndUserId | internal/infra/sources/postgres/repository.go:49-74 | finds the source of that user id when there is one |
| Sources.SourceStore.Create | internal/infra/sources/postgres/repository.go:145-158 | adds an unowned source unless the provider's user has one |
| Sources.SourceStore.Update | internal/infra/sources/postgres/repository.go:160-173 | changes username and address only |
| Sources.SourceStore.SetProfile | internal/infra/sources/postgres/repository.go:267-272 | changes one source's owner |
| Sources.SourceStore.ClearProfile | internal/infra/sources/postgres/repository.go:274-279 | takes the profile's sources from it and no other profile's |
| Ownership.Owners.SyncOwnership | internal/app/keyops/service.go:125-150 | rebuilds ownership from what the accounts resolve to; on a failure what was done by then stays |
| Ownership.Owners.SyncOwnershipBestEffort | api/authenticated/v1/profile.go:35-63 | rebuilds ownership from what could be resolved and marked; when nothing fails, from all of it |
| Ownership.RebuiltOwners | internal/infra/sources/postgres/repository.go:267-279 | after a rebuild the profile owns exactly the resolved sources, and every other profile its own minus those |
| Ownership.DeterminedExactly | internal/infra/sources/postgres/repository.go:76-101 | the outcome is the same for every run of either implementation exactly when no account's name belongs to two sources |
| Revoke.EqualFoldExactly | internal/app/keyops/service.go:182-184 | two usernames are one exactly when they differ in ASCII letter case alone: without capitals, when equal; folding either changes nothing |
| Revoke.ResolveProviderKeyId | internal/app/keyops/service.go:262-287 | the id of the first listed key with the stored fingerprint, else the recorded id if a listed key has it, else none |
| Revoke.FirstPageHas | internal/app/keyops/service.go:262-287 | a key, listed once, is on the page looked at exactly when fewer than a hundred of its type are listed before it |
| Revoke.Service.DeleteAtProvider | internal/app/keyops/service.go:210-258 | deletes no key but a matching one; succeeds with a matching key still listed exactly on a 404 the code gets to, with none on the first page, or with a second matching key |
| Revoke.Service.Revoke | internal/app/keyops/service.go:154-208 | on every input, the row goes while the provider lists the key exactly when the user may revoke, the provider is left listing it in one of those ways, nothing dies and the delete goes through; the row is gone exactly on success; a key is unknown exactly when it is not stored, and not the user's, with nothing changed, exactly when no account is connected, its name differs from the source's by more than letter case, or it gives no token; when nothing goes wrong the revocation succeeds, and finds the key gone already exactly when the first page has no target; no other row or key is touched, and none unless the user holds the account |
| Revoke.LeavesExactly | internal/app/keyops/service.go:237-248 | for a provider that lists all its keys on one page, no two of them matching, that takes a 404 the code gets to |
| Revoke.Service.Rerun | internal/app/keyops/service.go:154-258 | over any script of attempts, deaths and retries on a key and any changes of the provider's keys, the row is never gone while the provider lists the key exactly when no attempt meets that condition and no change adds a matching key once the row is gone |
| Revoke.SafeExactly | internal/app/keyops/service.go:154-258 | the same of any sequence of scenes that attempts and changes lead through |
| Revoke.NeverAhead | internal/app/keyops/service.go:154-258 | so the row never goes ahead of the key where the keys fit one page, no two match, none is added, and a 404 is only given when true |
| Walk.List | internal/infra/profiles/postgres/repository.go:39-65 | the first ids above the given one, ascending, none skipped |
| Walk.RefreshAllWorker.QueueBatch | internal/infra/jobs/periodic.go:66-82 | hands over a page in order and counts what was queued and what was not |
| Walk.RefreshAllWorker.Work | internal/infra/jobs/periodic.go:52-88 | ends however the table changes; ids are handed over in strictly increasing order, each under its own user; whoever is there at every listing is handed over; queued and failed count exactly |
| Crawler.Crawler.Run | internal/infra/scraper/service.go:68-137 | the rounds of a run follow one another's cursors, pass on each listed page in order and save as they went, whatever fails and wherever it dies; over all runs every id at or below the saved cursor was gone over by a listing passed on whole, and its account passed on if that listing's table had it |
| Crawler.SavedOver | internal/infra/scraper/service.go:92-125 | whatever a run saved its cursor past, some listing of that run went over, and passed on what was there |
| Crawler.PassIsComplete | internal/infra/scraper/service.go:92-125 | between two empty pages of a run each account that is there throughout is passed on exactly once |
| Refresh.Service.RefreshAccount | internal/app/keyops/service.go:93-112 | an account without scraper or user changes nothing and counts nothing; another is processed and counted as its own |

## Left out

- Search: the `id` and `key_bits` columns are text here; the server's casts, and its errors for text that is no UUID or number, are not modelled.
- Search: the tree's nil parts, which the parser never gives, and rows dropped from an answer because their source cannot be loaded.
- Search: tables list their rows newest first; ORDER BY is read but not carried out.
- Search.SearchSSHKeys: nothing is promised for a query with a wildcard pattern that ends in an unpaired backslash, because where the server gives up on such a pattern depends on how far matching gets.
- Search: an answer that breaks off because the connection is lost while its rows are read.
- Sql.Eval: a pattern ending in an unpaired backslash is a fault on every row, where the server complains only once matching gets that far; `Statement.SearchIsExact` asks for no such pattern.
- QueryLexer: texts are sequences of characters; the byte loops of the original agree on the ASCII texts that lex.
- Queue: the wording of errors and the `updated_at` column.
- Protocol: River's own storage and its scheduling; a job runs on one worker at a time, is retried after an error up to its budget and never after a nil return.
- KeyStore.KeyStore.Search: which rows are listed when more match than the limit, or when the listing breaks off, is left open, so the creation order is not modelled.
- KeyStore: the filter clause builder, of which only the filter by source and type is used here, and batch creation, scrape history and SSH key options.
- KeyStore, Sources and the crawler's cursor: a call that fails has no effect; one that takes effect with its reply lost is modelled only for the tasks table, the job queue and the provider.
- Protocol: a Report, Settle or Finish that takes effect unheard is the one that arrives, since its caller does the same either way.
- Sync: stored fingerprints are strings; a NULL one makes the original's listing fail.
- Sync: two writers for one source at a time.
- Scrape: waiting out rate limits, metrics, and telling fetch errors apart beyond being rate limited.
- Revoke: comparing usernames folds ASCII letters only; which scopes a provider requires is one yes-or-no input.
- Revoke: key ids at a provider are never empty, being printed numbers.
- Crawler: waiting between batches, and failing to load the saved cursor, which ends the run at once.
- HTTP, sign-in, usernames, statistics, capability lists and key parsing: no property of the kind proved here.
