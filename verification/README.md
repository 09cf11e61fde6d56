# A verified model of the runtime's ticks, gates and cursors

The runtime is a set of bounded "ticks" that drive durable state (a Postgres ledger, write-ahead files, cursors)
through crashes, lost replies and concurrent edits, and a few gates that must not let the wrong thing pass. This
project models its hard cores in Dafny and proves what they promise over every input and every run.

| files | models |
|---|---|
| `ProposerWorld`, `ProposerRemote`, `Proposer`, `FairScan` | the proposer: write-ahead suspects, slot accounting against `MAX_OPEN`, adoption, recovery, the fairness cursor |
| `ReviewChunker`, `ReviewCursor` | the review controller: what one dispatch covers, and what every move of the review cursor rests on |
| `SqlScanner`, `SqlGrammar`, `SqlNormalize`, `SqlClauses` | the migration gate's text side: the SQL scanner against the lexical structure of section 4.1 of the PostgreSQL documentation |
| `MigrationGate`, `TableGrowth`, `SchemaGrowth`, `GateCompleteness` | the migration gate's allowlist against what statements do to a schema, both ways |
| `GmailPull`, `InboxCursor`, `InboxClassify`, `InboxBrief` | the inbox assistant: pagination, the cursor protocol, the best-candidate scan, the brief |
| `WilsonScore`, `DialShadow` | the Wilson interval and the shadow classifier |
| `Promote`, `CurateChanges` | the journaled promote into a live directory |
| `RawDiff` | the docs-only merge gate over `git diff --raw -z` |
| `LikePattern` | the ILIKE pattern of the recall query |
| `Options`, `Collections`, `Splitting` | an option type; facts about sets and sequences; cutting text at a separator |

`dafny verify dfyconfig.toml` checks everything.

## How runs are modelled

A protocol is a world (a datatype), a set of atomic actions on it, and an invariant that every action keeps. The
program itself is a class whose methods change the world only through one method that takes one action and logs it in
a ghost run. So every moment inside a tick is a moment of a run, a crash anywhere leaves a prefix of a run, and what is
proved for all runs holds for all interleavings of ticks, crashes and other parties. Other parties act before every
remote call; requests may be lost, and so may replies whose effect took place.

Safety alone would be met by a program that does nothing. So whatever can go wrong is drawn from one stream of chances,
and a ghost constant says that every draw is good: nobody interferes, every reply arrives. No code can ask for it. Under
it each method says exactly what it does (`Proposer.Tick.Propose`, `ReviewCursor.Controller.ProcessRepo`,
`InboxCursor.Account.Tick`, `Promote.Promoter.Apply`); what the caller supplies, such as a failed fetch or a failed
classification, is a parameter there.

## What was found

Seven properties that the source's comments state or suggest do not hold on all inputs. Each has a concrete witness and the
exact condition under which it does hold.

- **The chunker can skip a reviewable commit silently** (`src/runtime/controller.py:574-601`). The comment says that a
  fitting first commit would have been picked. If its measurement fails in the walk and the retry of the fallback
  succeeds, it is advanced past without review and without an alert. `ReviewChunker.HealedSizingSkips` is the witness,
  `ReviewChunker.AdvanceExactly` the condition.
- **`MAX_OPEN` can be exceeded** (`src/runtime/proposer.py:1023-1032`, `957-971`). A refunded entry stays in the file;
  if its push lands later while every slot is in use, recovery, which no capacity gates, opens one more pull request.
  `ProposerWorld.CapacityOvershoots` is the witness, `ProposerWorld.CapacityExact` the condition, and
  `ProposerWorld.StrayOvershoots` shows that every such situation leads there.
- **The clear-invariant has one exception** (`src/runtime/proposer.py:571-574`, `1036-1042`). When the mark of a new pull
  request is fenced out, the pull request is closed and the entry cleared while its branch stays.
  `ProposerWorld.ClearLeavesBranch` is the witness, `ProposerWorld.DropExactly` the condition.
- **A backfill can lose mail** (`src/runtime/gmail_client.py:263-286`). It lists messages by date, so mail older than the
  window that was moved back into the inbox, the case the incremental pull reads label changes for, is not listed, and
  the cursor passes the change. `InboxCursor.ReentryLost` is the witness, `InboxCursor.NoMailLost` the condition.
- **The additive gate lets tightenings pass** (`substrate/migration_lint.py:383-412`). SET DEFAULT is searched for
  anywhere in a clause, so a foreign key with that referential action passes, and so does ADD without the word COLUMN,
  NOT NULL included; the word DEFAULT is searched for anywhere, so COMPRESSION DEFAULT stands in for a default; a domain
  that refuses NULL is not seen; a NOT NULL generated column is taken to have a value although an input may be NULL; and
  a new default can run into a constraint the column already has.
  `SchemaGrowth.ForeignKeySlipsThrough`, `SchemaGrowth.ColumnSlipsThrough`, `SchemaGrowth.WordSlipsThrough`,
  `SchemaGrowth.DomainSlipsThrough`, `SchemaGrowth.GeneratedSlipsThrough` and `SchemaGrowth.DefaultSlipsThrough` are the
  witnesses,
  `SchemaGrowth.GrowthExactly` is the condition.
- **The status grammar of the docs gate admits a trailing newline and a score above 100**
  (`src/runtime/automerge.py:98-101`): `RawDiff.StatusEscapes`, `RawDiff.StatusExactly`.
- **The two classifier gates exclude each other only when floor <= ceiling**, which the knobs do not enforce
  (`src/runtime/dialshadow.py:113-137`): `DialShadow.GatesExactly`.

## Model

| member | source | states |
|---|---|---|
| ProposerWorld.StepKeepsInv | src/runtime/proposer.py:562-660 | every atomic step of the proposer, of the remote, of humans and of the ledger keeps: each open bot PR is tracked under its own number, in the suspects file or handed over; slots in use are at most MAX_OPEN plus the open PRs recovered while full |
| ProposerWorld.SlotWasThere | src/runtime/proposer.py:1002-1006 | only a new write-ahead intent takes a slot, and the recovery of a refunded entry; every other step keeps or gives back |
| ProposerWorld.CrashThenResume | src/runtime/proposer.py:691-1055 | a run cut after any step and continued by another run is a run |
| ProposerWorld.RunKeepsInv | src/runtime/proposer.py:691-1055 | the invariant holds at every moment of every run |
| ProposerWorld.NoUntrackedPr | src/runtime/proposer.py:562-576 | at every moment of every run, crashes anywhere, each open bot PR is marked proposed under its number, or its fingerprint is in the suspects file, or it was handed to the human |
| ProposerWorld.CapacityHolds | src/runtime/proposer.py:703-725 | at every moment the never-handed-over open PRs, and those that can still appear, number at most MAX_OPEN plus the open ones that were recovered while every slot was in use |
| ProposerWorld.OvershootStep | src/runtime/proposer.py:957-971 | from a world within MAX_OPEN a step leaves it if and only if it opens the PR of a refunded, not handed-over entry while every slot is in use |
| ProposerWorld.CapacityExact | src/runtime/proposer.py:466-480 | a run keeps MAX_OPEN at every moment if and only if it contains no such recovery |
| ProposerWorld.StrayOvershoots | src/runtime/proposer.py:945-971 | from every world with a refunded ready entry whose branch exists while MAX_OPEN PRs are open, two steps of the proposer exceed MAX_OPEN |
| ProposerWorld.CapacityOvershoots | src/runtime/proposer.py:957-971 | a run in which a refunded entry's push lands late and MAX_OPEN is exceeded |
| ProposerWorld.DropExactly | src/runtime/proposer.py:571-574 | in every run, a drop of an entry that is neither tracked nor handed over breaks the stated clear-invariant if and only if the proposer closed its PR since it was last intended or opened and the branch has since been neither absent nor read as foreign |
| ProposerWorld.EvidenceCame | src/runtime/proposer.py:797-804 | evidence always comes from a read of absence or foreignness or from our close, with nothing intended or opened since |
| ProposerWorld.ClearLeavesBranch | src/runtime/proposer.py:1036-1042 | a run in which an entry is cleared while its own branch stays on the remote and its class is neither tracked nor handed over |
| ProposerRemote.Site.Write | src/runtime/proposer.py:691-1055 | the only assignment of the world: one allowed step, logged, invariant kept |
| ProposerRemote.StepStill | src/runtime/proposer.py:871-877 | a step made for one fingerprint leaves what is known of all others as it was |
| ProposerRemote.StepOnlyAt | src/runtime/proposer.py:871-877 | a step of the proposer's own for one fingerprint leaves every other row, branch, PR and file entry exactly as it was |
| ProposerRemote.Site.Claim | src/runtime/ledger/postgres_store.py:1436-1447 | ready -> proposing by compare-and-swap; the reply may be lost after the effect; a definite no means the row was not ready; without trouble it answers yes exactly for a ready row |
| ProposerRemote.Site.Mark | src/runtime/ledger/postgres_store.py:1461-1472 | proposing -> proposed(pr); a definite yes means the row is tracked under that number; without trouble it answers yes exactly for a proposing row |
| ProposerRemote.Site.Release | src/runtime/ledger/postgres_store.py:1473-1482 | proposing -> ready by compare-and-swap: a definite yes means it became ready, a definite no that it was not proposing |
| ProposerRemote.Site.Resolve | src/runtime/ledger/postgres_store.py:1483-1508 | called only when the PR is not open: a definite yes means a tracked row was retired, a definite no that it was not tracked, and nothing becomes tracked |
| ProposerRemote.Site.FindOpenBotPr | src/runtime/proposer.py:497-521 | found names the open PR, none means there is none, unclear says nothing |
| ProposerRemote.Site.ReadRef | src/runtime/proposer.py:365-405 | a definite ref answer is true at the moment it is given |
| ProposerRemote.Site.CreatePr | src/runtime/proposer.py:408-429 | opens a PR only for an intended fingerprint; an unreported create is uncertain, never "no" |
| ProposerRemote.Site.PushAndOpenPr | src/runtime/proposer.py:432-494 | the outcome is opened with the PR open, uncertain, or no-PR with nothing open; without trouble the branch is pushed and the PR opened |
| ProposerRemote.Site.AddSuspect | src/runtime/proposer.py:638-646 | success means the intent is durably in the file before anything is pushed; without trouble it fails only for a damaged file |
| ProposerRemote.Site.Witness | src/runtime/proposer.py:797-804 | records a read: absence only when there is no branch at that moment, foreignness only when there is one, neither while a PR is open |
| ProposerRemote.Site.ClearSuspect | src/runtime/proposer.py:649-660 | an entry is dropped only when tracked, handed over, or on recorded evidence without an open PR |
| ProposerRemote.Site.SaveSuspects | src/runtime/proposer.py:601-635 | the file is rewritten to the kept entries or stays as it was |
| Proposer.PassStep | src/runtime/proposer.py:744-841 | one more entry of the suspect pass, kept or settled, extends the pass invariant |
| Proposer.PassCovers | src/runtime/proposer.py:843-849 | after the pass the ledger's count plus the reservations cover every slot in use |
| Proposer.Tick.CountOpen | src/runtime/proposer.py:703-742 | the count covers the rows in flight, and the suspect pass starts from the file and the rows as read |
| Proposer.Tick.ResolveSuspect | src/runtime/proposer.py:759-841 | an untracked suspect is adopted, recovered, dropped with nothing left of it, handed over, or kept; without trouble which of these is decided by its row, its PR and its branch |
| Proposer.Tick.AdoptSuspect | src/runtime/proposer.py:764-796 | a real orphan is tracked; a refused claim keeps it if in flight, else hands it over; without trouble a ready one is tracked under its PR, counted, and not kept |
| Proposer.Tick.SettleOrRecover | src/runtime/proposer.py:797-836 | no PR and no branch settles; a stranded branch is recovered into a tracked PR or kept; without trouble a ready one is recovered |
| Proposer.Tick.ResolveSuspects | src/runtime/proposer.py:703-849 | after resolution the in-tick count covers every slot in use, and creation is off when the file is unreadable; without trouble the count is exact, and with probes for all each suspect is disposed of and none stays reserved |
| Proposer.AllResolved | src/runtime/proposer.py:744-849 | when every suspect was looked up: a ready one of which a PR or a branch exists is tracked, one in flight stays in the file, one that left ready is handed over, one of which nothing exists is let go, and nothing is reserved |
| Proposer.Tick.CoveredBounds | src/runtime/proposer.py:703-725 | a covered count is never below the number of possibly open, never-handed-over bot PRs |
| Proposer.Tick.Adopt | src/runtime/proposer.py:917-937 | adoption converts a reservation in place or takes a slot, and the books stay balanced; without trouble a ready row is tracked under the PR it was found with and leaves the file |
| Proposer.Tick.SettleReserved | src/runtime/proposer.py:945-975 | a reserved suspect is refunded only on a verified absence; without trouble it is refunded and cleared, or its stranded branch becomes a tracked PR |
| Proposer.Tick.RecoverReserved | src/runtime/proposer.py:957-971 | recovery of a stranded branch keeps its slot, whatever reply is lost; without trouble the ready row is tracked with a new PR and the reservation is converted |
| Proposer.Tick.CreateOrRecover | src/runtime/proposer.py:938-985 | a reserved suspect is settled or recovered first; creation is attempted only within both budgets; without trouble a ready row without PR and branch ends tracked with a new PR, unless creation is spent, a stranded reserved branch is recovered, and any other branch is left alone |
| Proposer.Tick.Create | src/runtime/proposer.py:976-1002 | creation is entered only for a branch just read absent, without open PR, untracked and unreserved, and keeps the books; without trouble a ready row is tracked with a new open PR, out of the file, and counted once as created, attempted and open |
| Proposer.Tick.RoomForOne | src/runtime/proposer.py:722-725 | a balanced count below MAX_OPEN leaves a free slot |
| Proposer.Tick.PushAndSettle | src/runtime/proposer.py:1002-1042 | every unresolved exit keeps the slot; only a verified absence or close refunds it; without trouble the PR is opened and tracked |
| Proposer.Tick.MarkCreated | src/runtime/proposer.py:1033-1049 | the new PR is tracked, or closed again and refunded, or keeps its slot with the claim released |
| Proposer.Tick.ScanReady | src/runtime/proposer.py:857-915 | attempts and probes stay in budget, and the cursor ends at the last processed row of the batch; without trouble every processed row is served, nothing else is touched, and the counts are exact |
| Proposer.ScannedOne | src/runtime/proposer.py:871-1049 | one more candidate served keeps the earlier ones served and the later ones untouched |
| Proposer.Tick.Propose | src/runtime/proposer.py:691-1055 | a whole tick is a run of allowed steps, its count covers every slot in use at the end, and with fewer suspects than probes it visits a non-empty next stretch; without trouble every suspect is disposed of, every row seen that can be rendered is tracked, or has a branch that is not ours, or creation is spent, and the count is the rows in flight and the reservations |
| Proposer.Tick.SpentIsReal | src/runtime/proposer.py:722-725 | after a tick without trouble, creation is spent only by rows in flight and reservations that fill MAX_OPEN, or by as many new rows in flight as a tick may create |
| Proposer.Tick.LoneRowIsProposed | src/runtime/proposer.py:976-1049 | after a tick without trouble, a ready row of which nothing existed, seen alone with a slot free and creation allowed, is tracked and its PR is open |
| Proposer.Tick.Reconcile | src/runtime/proposer.py:524-560 | nothing is opened or newly tracked, the file stays, and a row stops being tracked only when its PR is not open; without trouble exactly the tracked rows whose PR is gone or past its time are retired, with nothing open |
| Proposer.Tick.Run | src/runtime/proposer.py:1073-1101 | reconcile then propose, as one run, with the promises of both |
| FairScan.ListReady | src/runtime/proposer.py:863-870 | the page above the cursor in fingerprint order, or the first page when that is empty |
| FairScan.LeastFirst | src/runtime/ledger/postgres_store.py:1536-1549 | the `limit` least ready fingerprints, ascending |
| FairScan.CloserToRow | src/runtime/proposer.py:1050-1055 | a tick that does not visit a ready row passes at least one row before it and never passes the row itself |
| FairScan.FairlyVisited | src/runtime/proposer.py:857-870 | when ready rows only leave, every row that stays ready is visited within as many ticks as there were ready rows |
| ReviewChunker.Memo.Get | src/runtime/controller.py:522-535 | a cached answer is returned, a failed measurement is tried again |
| ReviewChunker.ChooseReviewTarget | src/runtime/controller.py:487-601 | the verdict is the one its specification `Chosen` allows: the whole range if measured within both budgets, else the last measured non-empty fitting commit of the first CHUNK_WALK_CAP, else a skip of the first commit if its size is known, else a deferral |
| ReviewChunker.Walk | src/runtime/controller.py:573-582 | the last candidate within the cap, each commit measured at most once |
| ReviewChunker.FallBack | src/runtime/controller.py:586-601 | skip the first commit with known sizes, defer when a size stays unknown |
| ReviewChunker.VerdictIsDetermined | src/runtime/controller.py:487-514 | the specification leaves no choice apart from the numbers a deferral quotes |
| ReviewChunker.AdvanceExactly | src/runtime/controller.py:590-601 | an advance names an over-budget or truly empty range, except exactly when the first commit was unmeasured in the walk, measured on the retry, fits and is not empty |
| ReviewChunker.StableAdvance | src/runtime/controller.py:590-601 | if a failed measurement keeps failing within the tick, nothing reviewable is skipped |
| ReviewChunker.WhenNothingFails | src/runtime/controller.py:487-514 | with all measurements available: head if it fits, else the last fitting non-empty prefix in the cap, else a skip |
| ReviewChunker.HealedSizingSkips | src/runtime/controller.py:599-601 | a reviewable commit that is skipped because its measurement healed |
| ReviewCursor.StepKeepsInv | src/runtime/ledger/postgres_store.py:1003-1142 | every ledger verb, worker event and human action keeps: links contiguous and accounted for, pending beyond the cursor, attempts at most MAX_ATTEMPTS |
| ReviewCursor.ForgiveRefunds | src/runtime/ledger/postgres_store.py:1074-1098 | after a forgiveness the target can be claimed at once, and that claim leaves the attempts as they were when positive |
| ReviewCursor.ClaimFences | src/runtime/ledger/postgres_store.py:1029-1057 | a claim excludes every other claim until it is stale; claiming the same target again counts, another target starts at one |
| ReviewCursor.ThreeStrikes | src/runtime/ledger/postgres_store.py:1129-1146 | a new target is blocked exactly after its third claim; blocked, it cannot be claimed again and every other target can |
| ReviewCursor.MoveResets | src/runtime/ledger/postgres_store.py:1100-1127 | a moved cursor has nothing pending, anything else may be claimed, and the count starts anew |
| ReviewCursor.RunKeepsInv | src/runtime/controller.py:963-1172 | the invariant holds at every moment of every run |
| ReviewCursor.CommitIsCovered | src/runtime/controller.py:963-1172 | every commit between baseline and cursor lies in exactly one link, and that link is a delivered in-budget review begun at or before it, an empty net diff, an over-budget range with an alert written first, or the healed case |
| ReviewCursor.AdvanceIsSound | src/runtime/controller.py:1067-1113 | a flagged skip is over a budget; a silent skip is empty, or the healed case under unstable sizing |
| ReviewCursor.DispatchIsSound | src/runtime/controller.py:1048-1054 | a dispatched range is within both budgets |
| ReviewCursor.FirstParents | src/runtime/controller.py:552-566 | the walk lists commits of base..head, none twice |
| ReviewCursor.Controller.Act | src/runtime/controller.py:963-1172 | the only assignment of the world: one enabled action, logged, invariant kept |
| ReviewCursor.Controller.TryForgive | src/runtime/controller.py:673-707 | the marker is consumed first; an attempt is refunded if and only if the marker was there, could be unlinked and the row still holds the commit; what the refund is worth is ForgiveRefunds |
| ReviewCursor.Controller.Ceiling | src/runtime/controller.py:1119-1146 | past the ceiling the target is blocked unless its abort is forgiven, so a claim never exceeds MAX_ATTEMPTS |
| ReviewCursor.Controller.Settle | src/runtime/controller.py:967-997 | the cursor moves only to the pending commit, over a delivered review; alone, exactly a delivered review moves it and a transient abort is forgiven |
| ReviewCursor.Controller.Skip | src/runtime/controller.py:1067-1113 | one link is added with its cause and the cursor stands at its end, or nothing moved; alone, an oversized range is reported and passed, an empty one passed |
| ReviewCursor.Controller.DispatchReview | src/runtime/controller.py:1119-1172 | a counted dispatch started a worker for cursor..target within the per-tick budget; the cursor does not move; alone, the target is claimed exactly when the ceiling is open, both budgets have room and the row can be claimed, and its review is sent exactly when pinned and started |
| ReviewCursor.Controller.ProcessRepo | src/runtime/controller.py:963-1172 | one tick is a run that undoes nothing and never moves the cursor back, spends at most one dispatch, and adds no healed skip when sizing is stable; alone, the whole world it leaves is determined by the chunker's choice and by what failed |
| ReviewCursor.NewCommitsAreReviewed | src/runtime/controller.py:1016-1172 | new commits that fit, measured without trouble, with nothing pending and budget left: one dispatch, the review of cursor..tip is sent, the tip is pending with one attempt |
| ReviewCursor.OrdinaryDispatch | src/runtime/controller.py:1147-1172 | a target never tried, or a stale attempt at it, is claimed with its count and its review is sent |
| ReviewCursor.CeilingDispatch | src/runtime/controller.py:1119-1146 | at the ceiling the target is blocked; with a transient abort on record it is sent once more with its count unchanged |
| SqlGrammar.PieceScanned | substrate/migration_lint.py:270-350 | at every piece, unclosed ones included, the scanner emits its neutral form and goes on at its end |
| SqlGrammar.ScanIsNeutral | substrate/migration_lint.py:270-350 | on every text made of pieces the scan is the concatenation of the neutral forms |
| SqlGrammar.EveryTextLexes | substrate/migration_lint.py:270-350 | every text is a sequence of pieces, the last of which may be an unclosed comment or quote; an unclosed dollar quote hides nothing |
| SqlNormalize.SkipBlock | substrate/migration_lint.py:288-298 | nested comments end where their depth returns to zero |
| SqlNormalize.SkipQuoted | substrate/migration_lint.py:238-253 | a quoted body ends at the first undoubled, unescaped quote |
| SqlNormalize.NextToken | substrate/migration_lint.py:283-344 | one turn of the scanner loop |
| SqlNormalize.Normalize | substrate/migration_lint.py:270-350 | the whole of `_normalize`: the collapsed neutral forms of the pieces of the text, for every text |
| SqlNormalize.CollapseGap | substrate/migration_lint.py:346-350 | any white-space run between two characters becomes one blank, none stays none, and next to a dot it disappears |
| SqlNormalize.NeutralStatements | substrate/migration_lint.py:606-618 | cutting the neutral text at semicolons cuts the pieces at code semicolons only |
| SqlNormalize.GateReadsStatements | substrate/migration_lint.py:606-618 | for every lexed text, the statements the gate reads are the collapsed neutral forms of its statements, one for one |
| SqlNormalize.BodiesNeverMatter | substrate/migration_lint.py:270-290 | texts whose pieces have the same neutral forms are read alike |
| SqlClauses.TopLevelClauses | substrate/migration_lint.py:95-112 | clauses without a comma outside parentheses, each but the last balanced, that join to the statement |
| SqlClauses.ClausesAreUnique | substrate/migration_lint.py:95-112 | that list is the only one, so the split inverts the join |
| MigrationGate.LintFile | substrate/migration_lint.py:606-642 | exactly the positions of the statements that do not pass, given what the file created before them; what passing means is SchemaGrowth.StatementStep and GateCompleteness.GateExactly |
| MigrationGate.LintDeploy | substrate/migration_lint.py:675-703 | accepts exactly when every statement of every file passes under the deploy-wide link flag; what acceptance means is SchemaGrowth.GrowthExactly and GateCompleteness.DeployAdmits |
| MigrationGate.AcceptsBySet | substrate/migration_lint.py:449-467 | with the live relations given, the verdict is a property of the set of statements |
| MigrationGate.RegroupingKeepsVerdict | substrate/migration_lint.py:675-703 | reordering or splitting across files never changes the verdict |
| MigrationGate.LinkedIsStricter | substrate/migration_lint.py:506-550 | setting the link flag can only reject more |
| MigrationGate.OrderMattersWhenBlind | substrate/migration_lint.py:449-467 | without the live relations the order does matter |
| GateCompleteness.GateExactly | substrate/migration_lint.py:470-576 | with the live relations given, and outside the refused and the accepted exceptions, a statement passes if and only if in no schema it can meet it breaks the code of an old table or makes one a partition or a parent of one |
| GateCompleteness.GateAdmits | substrate/migration_lint.py:470-576 | with or without the live relations, a statement passes if each of its clauses is harmless in every schema, except: a quoted name where newness is needed; a unique index or a tightening on a new table while the deploy links tables; an added column with a constraint or without the word COLUMN; a partition of an old table under a taken name; data with RETURNING or dblink; what is not analysed |
| GateCompleteness.ClauseByClause | substrate/migration_lint.py:551-551 | an ALTER TABLE passes exactly when each of its clauses passes alone |
| GateCompleteness.RefusedClause | substrate/migration_lint.py:383-412 | a refused clause, other than an added column with a constraint or without the word COLUMN, breaks the old code of some table without constraints |
| GateCompleteness.DeployAdmits | substrate/migration_lint.py:675-703 | a deploy whose every clause is harmless and no exception is accepted |
| GateCompleteness.LinksExactly | substrate/migration_lint.py:593-603 | the link words stand in a statement exactly when it can link tables, apart from INHERITS and NO INHERIT |
| GateCompleteness.LinkedIsTooStrict | substrate/migration_lint.py:504-509 | in a linking deploy a unique index on a new table and a change to a new table alone harm nothing and are refused |
| GateCompleteness.QuotedIsTooStrict | substrate/migration_lint.py:463-464 | the first definition of a view under a quoted name harms nothing and is refused |
| TableGrowth.GrownIffOldCodeRuns | substrate/migration_lint.py:383-412 | a table only grew exactly when every valid INSERT and every by-name read of it stays valid, where a row gets the defaults in force, a computed column is NULL when an input is, and a constraint's verdict depends on what it sees |
| SchemaGrowth.StatementStep | substrate/migration_lint.py:470-576 | a passing statement acts on an old table as the fold of the mild clauses that hit it, and as nothing else |
| SchemaGrowth.MigrationStep | substrate/migration_lint.py:606-642 | so does an accepted migration, wherever it stops |
| SchemaGrowth.FoldExactly | substrate/migration_lint.py:383-412 | clauses acting on a table leave its old code running if and only if none adds a NOT NULL column that an old row need not fill, adds a constraint that can come to judge an old row, or changes the default that an old constraint sees |
| SchemaGrowth.AcceptedDeployGrows | substrate/migration_lint.py:470-576 | if no clause of the six risky accepted forms acted on a table, all its old code keeps running |
| SchemaGrowth.GrowthExactly | substrate/migration_lint.py:383-412 | after an accepted deploy, wherever it stops, the old code of a table runs if and only if no clause that acted on the table breaks it |
| SchemaGrowth.ForeignKeySlipsThrough | substrate/migration_lint.py:407-412 | ADD FOREIGN KEY with SET DEFAULT: accepted, and a valid INSERT is refused afterwards |
| SchemaGrowth.ColumnSlipsThrough | substrate/migration_lint.py:390-412 | ADD without COLUMN of a NOT NULL column with a SET DEFAULT reference: accepted, and a valid INSERT is refused afterwards |
| SchemaGrowth.WordSlipsThrough | substrate/migration_lint.py:390-399 | ADD COLUMN with NOT NULL and the word DEFAULT in another role: accepted, and a valid INSERT is refused afterwards |
| SchemaGrowth.DomainSlipsThrough | substrate/migration_lint.py:390-399 | ADD COLUMN of a domain that refuses NULL: accepted, and a valid INSERT is refused afterwards |
| SchemaGrowth.GeneratedSlipsThrough | substrate/migration_lint.py:390-399 | NOT NULL on a column generated from a nullable one: accepted, and a valid INSERT is refused afterwards |
| SchemaGrowth.DefaultSlipsThrough | substrate/migration_lint.py:407-412 | SET DEFAULT under a constraint that accepted the old default: accepted, and a valid INSERT is refused afterwards |
| GmailPull.PullSinceHistory | src/runtime/gmail_client.py:210-261 | exactly the threads some page shows, each once, with the first page's history id; whatever pages the server serves, they hold every change from start to that id |
| GmailPull.PullBackfill | src/runtime/gmail_client.py:263-286 | exactly the threads of the listed messages, with the checkpoint read before the listing; they hold every message dated after the window that stays in the inbox throughout the listing |
| GmailPull.ReentryIsNotListed | src/runtime/gmail_client.py:263-286 | the listing is no history: a message that re-entered the inbox and is dated before the window is not shown |
| GmailPull.CheckpointCovers | src/runtime/gmail_client.py:210-261 | every change up to a checkpoint taken no later than the first history page is on some page, whatever arrived in between |
| GmailPull.FirstPageCheckpointCovers | src/runtime/gmail_client.py:210-261 | every event after start and up to the returned history id is on some page |
| GmailPull.CheckedPullIsWhole | src/runtime/gmail_client.py:210-261 | the threads of a history pull hold every change between where it began and a checkpoint read no later than its first page: what the cursor relies on |
| GmailPull.LaterCheckpointLoses | src/runtime/gmail_client.py:210-225 | with a later page's history id an event would be covered and shown on no page |
| InboxCursor.HoldIsBounded | src/runtime/inbox_assistant.py:902-948 | whatever the row, the third held tick at the latest advances, and earlier ones leave the slice |
| InboxCursor.HoldIsPatient | src/runtime/inbox_assistant.py:902-948 | a slice that nothing failed on is held exactly twice and passed on the third held tick; a first run's failure seeds a row |
| InboxCursor.StepKeepsInv | src/runtime/ledger/postgres_store.py:1148-1243 | every arrival, departure, pull, brief, error mark and compare-and-swap advance, of any tick, keeps every change up to the cursor accounted for |
| InboxCursor.AdvanceCovers | src/runtime/ledger/postgres_store.py:1164-1187 | the compare-and-swap makes the advance safe: the row still names what the slice began from, and the delivered slice answers for the rest |
| InboxCursor.RunKeepsInv | src/runtime/inbox_assistant.py:823-950 | the invariant holds at every moment of every run |
| InboxCursor.Account.Settle | src/runtime/inbox_assistant.py:920-950 | after a delivered brief the cursor advances over the pulled slice by compare-and-swap, or the failure is counted on it |
| InboxCursor.Account.Fail | src/runtime/inbox_assistant.py:807-820 | a failed pull counts on the slice it read if a row existed then, else on whatever row there is, and never seeds a row |
| InboxCursor.Account.Tick | src/runtime/inbox_assistant.py:823-950 | a tick, dying anywhere and interleaved with any other ticks of the account, is a run that undoes nothing; its own actions are exactly those that the row it read first, the row it read for the valve and the row it met at the end call for; alone it leaves exactly the row that a held, clean or failed tick leaves |
| InboxCursor.AdvancesExactly | src/runtime/inbox_assistant.py:868-948 | the tick advances the cursor if and only if the brief was written, the row still names what was read, and nothing failed or the row read for the valve had that slice with two attempts; held otherwise, it marks the slice |
| InboxCursor.Account.HoldThrice | src/runtime/inbox_assistant.py:902-948 | three held ticks that run alone: the cursor has moved on by the third at the latest |
| InboxCursor.NoMailLost | src/runtime/inbox_assistant.py:751-804 | at every moment of every run, each message that a change up to the cursor brought into the inbox is listed on a durably written brief that answers for the change, unless a backfill answered for it and the message was dated before its window or was not in the inbox throughout its listing |
| InboxCursor.BoxIsTrue | src/runtime/gmail_client.py:263-286 | what a backfill could list is exactly the mail that had been in the inbox from before its checkpoint to its end |
| InboxCursor.ReentryLost | src/runtime/inbox_assistant.py:776-783 | a run whose first backfill misses old mail moved back into the inbox and whose cursor passes the change |
| InboxCursor.NeverBack | src/runtime/ledger/postgres_store.py:1164-1187 | in every run the cursor never moves back, and nothing pulled or briefed is forgotten |
| InboxCursor.Account.Act | src/runtime/inbox_assistant.py:823-950 | the only assignment of the world: one enabled action, logged, invariant kept |
| InboxCursor.Account.PullSlice | src/runtime/inbox_assistant.py:751-804 | the checkpoint is taken first; the recorded slice is a history pull from what was read, or a listing of the mail in the inbox since before the checkpoint |
| InboxClassify.RowsAreFirstClaims | src/runtime/inbox_assistant.py:306-327 | the rows are each sent thread's first valid claim with a known category, and nothing else |
| InboxClassify.ValidateRows | src/runtime/inbox_assistant.py:306-327 | the loop computes those rows |
| InboxClassify.ParseClassification | src/runtime/inbox_assistant.py:330-400 | the scan stops at brackets in strictly rising order, never inside an array that gave rows and skipping nothing else; it returns the first complete row set at once, else the first largest one when the whole text was swept within budget, else nothing |
| InboxClassify.NextStop | src/runtime/inbox_assistant.py:361-387 | one more stop keeps the scan's state or completes it |
| InboxClassify.Look | src/runtime/inbox_assistant.py:366-387 | one bracket: whether a list is there, the better of its rows and the best so far, and where to go on |
| InboxClassify.StopSweeps | src/runtime/inbox_assistant.py:361-387 | each stop carries the sweep past its bracket or past the whole array it found |
| InboxBrief.Classify | src/runtime/inbox_assistant.py:403-455 | the flagged threads are suspicious, the unflagged ones beyond the budget unclassified, and every other item carries the category and worth of its thread's row in the answer of its own call, unclassified without one; each answer is the best-candidate scan of its reply; ok if and only if every call got rows; one item per thread |
| InboxBrief.Screen | src/runtime/inbox_assistant.py:413-430 | exactly the flagged threads become suspicious items, in order, and exactly the others are candidates |
| InboxBrief.HavingExactly | src/runtime/inbox_assistant.py:413-430 | each thread is on its own side of the screen, as often as it was pulled |
| InboxBrief.Ask | src/runtime/inbox_assistant.py:436-455 | one call: no reply, or the rows of the best-candidate scan over it, for threads of the chunk and answerable categories only |
| InboxBrief.CreateDrafts | src/runtime/inbox_assistant.py:523-565 | an item is drafted if and only if it is worthy and draftable, its account pulled, no draft exists, it comes within the first MAX_DRAFTS attempts, and composing and creating work; an account is held exactly for a failed check or create |
| InboxBrief.DraftsWithinBudget | src/runtime/inbox_assistant.py:523-565 | at most MAX_DRAFTS drafts |
| InboxBrief.OnePlace | src/runtime/inbox_assistant.py:616-638 | each item is shown in exactly one place |
| InboxBrief.BriefHoldsAll | src/runtime/inbox_assistant.py:616-638 | the sections and the noise count together hold each item exactly once |
| InboxBrief.PlaceShows | src/runtime/inbox_assistant.py:616-638 | each section shows exactly the items whose place it is, as often as they occur |
| InboxBrief.PrepareBrief | src/runtime/inbox_assistant.py:403-455 | from pull to brief every thread appears exactly once, in the place its answer and its draft give it |
| WilsonScore.WilsonExactly | src/runtime/dialshadow.py:141-152 | p is in the interval exactly when (k-np)^2 <= z^2*n*p*(1-p) |
| WilsonScore.ClampsAreIdle | src/runtime/dialshadow.py:152-152 | the clamps to [0, 1] change nothing, and lo <= hi |
| WilsonScore.ObservedIsInside | src/runtime/dialshadow.py:141-152 | k/n lies in the interval |
| WilsonScore.FalseLowers | src/runtime/dialshadow.py:141-152 | one more false positive lowers both ends |
| WilsonScore.RealRaises | src/runtime/dialshadow.py:141-152 | one more confirmed finding raises both ends |
| WilsonScore.MirrorFlips | src/runtime/dialshadow.py:141-152 | swapping the labels mirrors the interval |
| DialShadow.GatesExclude | src/runtime/dialshadow.py:215-233 | with floor <= ceiling no cell meets both gates, so their order is immaterial |
| DialShadow.VerdictExactly | src/runtime/dialshadow.py:215-233 | insufficient exactly below a count threshold; else would-suppress exactly when every plausible rate is below the floor and there are min_fp false positives; else would-trust exactly when every plausible rate reaches the ceiling; else hold |
| DialShadow.GatesExactly | src/runtime/dialshadow.py:215-233 | for every setting of the knobs, the two gates exclude each other in every sufficient cell if and only if floor <= ceiling |
| DialShadow.ClashingCell | src/runtime/dialshadow.py:113-137 | for every floor above the ceiling there is a sufficient cell that both gates claim |
| DialShadow.FalseNeverRaises | src/runtime/dialshadow.py:215-233 | a false positive never raises a sufficient cell's verdict, so hold never becomes would-trust by one |
| DialShadow.RealNeverLowers | src/runtime/dialshadow.py:215-233 | a confirmed finding never lowers a sufficient cell's verdict |
| CurateChanges.ClassifyChanges | src/runtime/curate.py:184-256 | no violation exactly when every staged file but index.md still holds its staged content, index.md is there, unchanged or with checked content, anything else is a checked new file or a staged directory, and a lint run changed nothing |
| CurateChanges.AllowedIsAdditive | src/runtime/curate.py:184-256 | the per-entry rules with the check for missing files say exactly that of the workspace's contents |
| CurateChanges.TargetsAreNewOrIndex | src/runtime/curate.py:184-256 | the targets are exactly the new files and a modified index.md, none twice |
| Promote.StepIsAdditive | src/runtime/curate.py:329-353 | every step of the promote leaves the content and name of every file it did not create, except index.md while it reads as staged in |
| Promote.StepKeepsJournal | src/runtime/curate.py:322-329 | every step, the human's included, keeps the journal a prefix that lags by at most one |
| Promote.JournalLag | src/runtime/curate.py:273-354 | at every moment of every run, a readable journal's applied list is a prefix of the targets that lags what went live by at most one |
| Promote.FileSurvives | src/runtime/curate.py:273-290 | a file the promote did not create, other than index.md and untouched by the human, keeps name and content at every later moment |
| Promote.IndexSurvives | src/runtime/curate.py:340-351 | an index.md that differs from the staged-in one is never replaced |
| Promote.Promoter.Preflight | src/runtime/curate.py:260-320 | passes exactly with a baseline commit, some target, only safe, clean and absent targets, and an unchanged index |
| Promote.Promoter.PublishNew | src/runtime/curate.py:331-339 | a new name is published without clobbering, with the staged content in the file it created |
| Promote.Promoter.PublishAll | src/runtime/curate.py:331-339 | the new files in order, the journal rewritten after each; with nobody in the way all of them are live with their staged content |
| Promote.Promoter.PublishIndex | src/runtime/curate.py:340-351 | index.md is replaced, by exactly the staged index, only after a final compare; else nothing is published |
| Promote.Promoter.Apply | src/runtime/curate.py:273-354 | a refused promote writes nothing; any other leaves a journal whose phase is its outcome (committed, desynced or uncommitted only when every target went live, a conflict only with the new files live), unless its last write failed; with nobody in the way every target is live with its staged content and the phase is committed |
| RawDiff.ParseRawZ | src/runtime/automerge.py:147-183 | the loop computes the strict grammar of the token list |
| RawDiff.ParseEntry | src/runtime/automerge.py:160-181 | one turn of the loop reads exactly the entry at the front, or the rest does not parse |
| RawDiff.ParseIsComplete | src/runtime/automerge.py:147-183 | on success the entries' info lines and paths are exactly the fields of the stream, in order |
| RawDiff.ParseReads | src/runtime/automerge.py:147-183 | every field list of that shape parses, to the entries it was made from |
| RawDiff.ParseInvertsPrint | src/runtime/automerge.py:147-183 | the parser inverts a printer of entry lists |
| RawDiff.ClassifyDiff | src/runtime/automerge.py:186-212 | true exactly for a non-empty list of entries with an accepted status, only inert document paths, and the mode of a regular file on each side the change has and of none on the other |
| RawDiff.DocPathExactly | src/runtime/automerge.py:120-144 | the path test accepts exactly a Markdown path with no denied directory among its components and a name that is not denied in either case |
| RawDiff.ModesExactly | src/runtime/automerge.py:200-211 | the per-status mode rules: only an addition lacks the old side, only a deletion the new one, and every side there is a regular file |
| RawDiff.GateCoversStream | src/runtime/automerge.py:147-212 | parsed and all safe: the byte stream consists of vouched-for info lines and inert document paths, and nothing else |
| RawDiff.Gate | src/runtime/automerge.py:502-507 | passes exactly a stream that is a non-empty list of safe entries, each printed as its info line and paths; a pass vouches for every field |
| RawDiff.StatusExactly | src/runtime/automerge.py:98-101 | the status check is the documented grammar with a score of 0 to 100, except exactly for one trailing newline and a three-digit score above 100 |
| RawDiff.StatusEscapes | src/runtime/automerge.py:98-101 | both exceptions occur |
| LikePattern.ReplacesEscape | src/runtime/knowledge.py:277-280 | the three replacements escape each character once |
| LikePattern.PrefixExactly | src/runtime/knowledge.py:277-280 | an escaped query with a trailing wildcard matches exactly the strings that begin with it |
| LikePattern.PatternIsSubstring | src/runtime/knowledge.py:267-280 | a string matches the pattern exactly when it contains the capped query, up to case folding |

## Assumptions

- Proposer: one ticker, one scope per repository, a stable bot identity; a definite lookup is true when it is given; a
  pull request's creation takes effect before the call returns; deleting a branch closes its pull request; the ledger
  verbs are the compare-and-swaps of `src/runtime/ledger/postgres_store.py:1436-1549`; reaping stuck claims is a
  row change other parties may make at any moment; nobody reopens a closed pull request of the bot.
- Review cursor: an append-only history, so that commits can be numbered in order; a measurement that succeeds is
  right; `git diff --quiet` reports no difference only for an empty patch; a done marker is written only for a
  delivered review.
- Inbox: a history listing shows everything that was in the mailbox at its first request; a message listing shows every
  message dated after the window that stays in the inbox from its first request to its last; history ids never fall.
  The cursor model takes from the pulls what `GmailPull` proves of them.
- Migration gate: the relation set given is the one that exists, and names resolve to the same relations before and after
  the deploy; a default expression whose text does not read NULL is not NULL, and a generated value is NULL exactly when
  an input is; no index, default or generated expression, and no coercion of its value, raises; constraint names are
  unique to a table, and a taken name fails the statement; data statements change no verdict of a constraint; the other
  creates leave existing tables alone; statements outside the modelled subset are refused.
- Wilson: exact reals, a square root given by its defining property.
- Promote: the human does not edit index.md or the temporary between the last compare and the rename, the gap the
  source admits; the name drawn for the temporary is not in use.
- Docs gate: UTF-8 validity is a parameter, case folding of ASCII only.

## Left out

- ProposerRemote.Site.Claim: does not model the branch and draft hash that fence a claim, only the row's state.
- ProposerRemote.Site.SaveSuspects: does not model a rename that reverts because the directory was not synced.
- ProposerRemote.Site.Mark: does not model the branch and draft hash that fence a mark, only the row's state.
- InboxClassify.ParseClassification: does not model the JSON decoder, which is a parameter that reads a value at a bracket.
- ReviewCursor.CommitIsCovered: does not cover force-pushed histories, where commits have no common order.
- Promote.Promoter.Apply: does not model the git commit after the files are live, only whether it and the index reset work.
- Worktree, commit and skill rendering of the proposer, and its dry run: they do not change the protocol's state.
- SchemaGrowth.GrowthExactly: does not cover the gate's fallback without the live relations, where a temporary table of
  an existing name, once renamed, lets a later statement on that name pass and hit the existing table; nor a temporary
  table that shadows an existing one for the session.
- GateCompleteness.GateExactly: covers the live relations given; without them GateCompleteness.GateAdmits is one way only.
- `keep_quoted` and the dblink and routine escapes of the migration gate: separate pattern matches over the same text.
- The matching of SQL text to statements: the schema side starts from a statement datatype.
- A thread that is deleted between the pull and the fetch of its summary: the source drops it.
- Labels, secondary deliveries and the text of the brief: they neither move the cursor nor place items.
- `aggregate_cells` and `eval_arming`: grouping and thresholds around the interval that would only add easy members.
- Transient and defer streak alerts, the daily dispatch count and the skill indexer of the controller: they never move the cursor.
- The pool, the worker, the runner, the API and the command line.
