# Verification of docstore

This project models the parts of docstore where most can go wrong and proves what they promise, in
Dafny 4.11. `dafny verify dfyconfig.toml` checks all of it.

The core is the version store: a small git on database tables. `Tables.dfy` has the tables of one
repository and the invariant of the store: every file row belongs to a commit of its branch, every
stored hash is the digest of its commit chained to the previous commit of the branch, heads bound
their branches, rows left behind by a rebase are replayed above the new base, and a review at a
head was written against the branch's present changes. `Transactions.dfy` says what each
transaction writes, for whatever sequence numbers it was given, and proves that the invariant is
kept; `Views.dfy` and `Purging.dfy` prove what merge, rebase and purge do to what users see, and
`Discussions.dfy` adds the proposals and review comments whose foreign keys can hold a purge back.
`DocStore.dfy` is the store itself, a class over the tables whose methods follow the statements of
the Go transactions and are proved against the specifications of `StoreSpecs.dfy` and
`Resolving.dfy`; `Outcomes.dfy` relates several calls, and `Scenarios.dfy` runs three
sequences of calls that end otherwise than documented. `Effects.dfy` says what each transaction
leaves in each column and to each reader, without the functions it is built from. `Interleaving.dfy` runs the same transactions one
statement at a time under any schedule, with row locks held to the end and a sequence counter that
a rollback does not give back; `InterleavingProofs.dfy`, `Schedules.dfy` and `Runs.dfy` prove that
every schedule has the effect of its committed requests carried out one after another, that the
store stays sound, and that no schedule deadlocks or runs for ever; `StepEffects.dfy` says what each of them has checked and written at its
commit, column by column. `Histories.dfy` adds requests
that arrive at any time and purges between them: history below a committed head of a branch never
changes until a purge takes the branch.

Around it stand the canonical commit encoding (`CommitHashing.dfy`), the client's chain
verification (`ChainVerify.dfy`, `ChainTheorems.dfy`, `EndToEnd.dfy`), the `if:` expression language
of CI configurations (`IfSyntax.dfy`, `IfParser.dfy`, `IfTheorems.dfy`, `IfMeaning.dfy`), the CI job
lease (`CIJobs.dfy`, `CIScheduler.dfy`), the webhook outbox (`Outbox.dfy`) and log scrubbing
(`ScrubLogs.dfy`).

How the model stands to the code:

- SHA-256 in hex is an arbitrary function on strings. The only assumptions made about it are that
  it never returns the empty string (completeness of verification) and that the texts compared do
  not collide (soundness, and the exact condition for a pull); one scenario has no collisions at all.
- A Go string is the sequence of its bytes, each one a `char`; the white space that
  `strings.TrimSpace` removes is given by its UTF-8 bytes.
- The clock, random UUIDs and tokens, HTTP answers and the server a client talks to are parameters
  or counters. Sequence numbers and versions are unbounded naturals.
- `Review.seen` is not a column. It records the change set a review was written against, so that
  the currency of reviews can be stated.
- Six places promise more than the code does. For each there is an input that shows it and the
  exact condition under which the promise is kept.
  - `internal/hash/hash.go:25-26` says caller order does not matter: that is so exactly when no path
    is listed with two content hashes (`CommitHashing.OrderFreeIff`, `CommitHashing.TwoOrders`).
  - `internal/executor/executor.go:352-357` says the order of the secrets does not matter: a secret
    survives in some log exactly when it begins or ends with `*` or contains `***`
    (`ScrubLogs.ScrubbedIff`).
  - `internal/db/store.go:1655-1660` says that a purge deletes merged and abandoned branches. It
    deletes neither proposals nor comments, and `internal/db/migrations/000010_proposals.up.sql:14`
    and `000007_review_comments.up.sql:8,12,17` have no ON DELETE. One proposal that ever was on a
    branch to purge, open or not, makes the whole purge fail, dry run or not
    (`Scenarios.ProposalBlocksPurge`, `Discussions.BlockedIff`).
  - `internal/db/store.go:1077-1079` refuses an approval by whoever authored commits on the branch.
    Only commits above the base are looked at, and a rebase gives the replays its own caller's name,
    so authors may approve their change once somebody else has rebased it
    (`Scenarios.RebaseAllowsSelfApproval`, `Effects.SelfApprovalAfterRebase`).
  - `internal/cli/app.go:646-648` lets a pull verify the chain from the stored sequence. After
    `checkout -b` the stored hash is that of another branch, and an honest server is accused of
    breaking the chain as soon as somebody else has committed to the new branch
    (`Scenarios.NewBranchIsAccused`, `ChainTheorems.PullNewBranch`, `ChainTheorems.HonestPullIff`).
  - The same lines: a rejected pull has already moved the stored sequence, so the next pull at the
    same head reports success without verifying anything (`ChainVerify.PullAgain`).
- `Merge` has `branch != main` as a precondition, because the handler checks it
  (`internal/server/handlers_proposals.go:475`), and a commit has at least one file
  (`internal/server/server.go:689`).

## Model

| member | source | states |
|---|---|---|
| Timestamps.FormatInjective | internal/hash/hash.go:38 | two valid times with the same RFC 3339 text (section 5.6) are the same time, trailing zeros of the fraction dropped |
| Timestamps.FormatReads | internal/hash/hash.go:38 | the text of a valid time reads back field by field, with the fraction's digits after a point and no trailing zero, then Z |
| Timestamps.BeforeIff | internal/db/store.go:1687 | created_at < threshold is the order of the instants |
| Strings.DecimalReads | internal/hash/hash.go:33 | the sequence number is written in decimal digits that read back, without a leading zero |
| Strings.LexLessIff | internal/hash/hash.go:29 | the sort order is the byte order: the smaller byte at the first difference, or the shorter text |
| CommitHashing.SortByPath | internal/hash/hash.go:28-29 | the in-place sort leaves the same entries in path order, ties in any order |
| CommitHashing.CommitHash | internal/hash/hash.go:27-43 | hashes the header lines and one line per file of some path order; for distinct paths the result is the digest of the record, whatever order the files came in |
| CommitHashing.SortedDistinct | internal/hash/hash.go:28-29 | distinct paths leave exactly one sorted order, the listing of the path-to-hash map |
| CommitHashing.FileLineShape | internal/hash/hash.go:38-41 | a file line never ends in Z, so it cannot be taken for the timestamp line |
| CommitHashing.BytesText | internal/hash/hash.go:31-37 | the text hashed is the seven fields in this order, a line each, and then the lines of the files |
| CommitHashing.FilesText | internal/hash/hash.go:38-40 | a file adds its path, a colon, its content hash and a newline |
| CommitHashing.GoldenText | internal/hash/hash_test.go:58-76 | the text behind the repository's golden hash, byte by byte |
| CommitHashing.BytesInjective | internal/hash/hash.go:31-41 | equal bytes come from equal header fields and equal file listings, also for listings that repeat a path |
| CommitHashing.EncodeInjective | internal/hash/hash.go:27-43 | unique decoding: one-line fields, hex or empty content hashes and an arbitrary multi-line message leave one record per encoding |
| CommitHashing.NewlinesCollide | internal/hash/hash.go:32-37 | why fields must be one line: an author holding a newline encodes like a longer message |
| CommitHashing.OrderFreeIff | internal/hash/hash.go:25-29 | the bytes are independent of the order of the files if and only if no path is listed with two content hashes |
| CommitHashing.TwoOrders | internal/hash/hash.go:28-29 | the counterexample: a path listed with two content hashes has two sorts with different bytes |
| Tables.NetIsLastRow | internal/db/store.go:1007-1035 | the query's answer: a path has version v in a branch's net change if and only if v is the version of its last row above the base |
| Tables.PrevSeqIsMax | internal/db/store.go:29-33 | the previous commit is the greatest sequence below n on the branch |
| Tables.PrevHashMeans | internal/db/store.go:27-45 | a commit is chained to the last earlier commit of its branch, and to 64 zeros when there is none or it has no hash |
| Tables.NetSplit | internal/db/store.go:1007-1035 | net change over a range is the overlay of the net changes of its parts |
| Views.ReaderSeesView | internal/store/store.go:79-133 | read at or after its head, the last row of each path among the branch's rows and main's up to the base is exactly the view, although rebases leave old rows on both sides of the base |
| Transactions.AddCommitKeepsChain | internal/db/store.go:507-516 | adding a commit keeps every stored hash equal to the digest of its own row, its files' content hashes and the previous hash of its branch |
| Transactions.AdvanceKeeps | internal/db/store.go:394-528 | one more commit keeps log, chain, heads, reviews and the coverage of rebased rows, overlays the branch's net change and leaves every other branch's alone; its number need not be the greatest in the table |
| Transactions.CommitKeeps | internal/db/store.go:394-528 | a commit with its new documents keeps the invariant |
| Transactions.BranchOffKeeps | internal/db/store.go:532-568 | a new branch keeps the invariant |
| Transactions.WithStatusKeeps | internal/db/store.go:1047-1074 | abandoning a branch keeps the invariant |
| Transactions.AddReviewKeeps | internal/db/store.go:1080-1138 | a review at the head keeps the invariant, with the change set it was written against |
| Transactions.MergeKeeps | internal/db/store.go:619-785 | a merge keeps the invariant |
| Transactions.GroupsFoldToNet | internal/db/store.go:966-1003 | the row groups of a branch overlaid in sequence order are its net change |
| Transactions.GroupSeqsAll | internal/db/store.go:966-1003 | no row group above the base is left out of a replay |
| Transactions.ReplayedKeeps | internal/db/store.go:895-937 | after any number of replays the invariant holds, including every chained hash |
| Transactions.RebaseKeepsChanges | internal/db/store.go:790-962 | a rebase keeps the branch's net change, with the old rows above the new base still in the log, and every other branch's |
| Transactions.RebaseKeeps | internal/db/store.go:790-962 | a rebase keeps the invariant |
| Resolving.ResolveMeans | internal/db/store.go:426-497 | the versions given to a request's files have documents with the hashes of the requested contents; each new document is new and named by a row |
| Resolving.GroupsRecovered | internal/db/store.go:980-1001 | grouping rows by sequence puts every group together again |
| Resolving.BranchCommitGroups | internal/db/store.go:966-1003 | returns every row group above the base once, in sequence order, with exactly its rows |
| DocStore.DocStore.constructor | internal/db/store.go:290-325 | a new repository with main at sequence 0 is sound |
| DocStore.DocStore.Rollback | internal/db/tx.go:22-47 | restores every table and keeps the sequence counter |
| DocStore.DocStore.StampHash | internal/db/store.go:507-516 | stores the digest of the record chained to the previous hash of the branch |
| DocStore.DocStore.InsertChanges | internal/db/store.go:423-497 | inserts rows and deduplicated documents as the resolution of the request says, and lists the hashes to sign |
| DocStore.DocStore.Commit | internal/db/store.go:394-528 | the error cases leave the tables alone; otherwise the new tables are those of the commit specification at the next number, hold the requested contents and are sound |
| DocStore.DocStore.CreateBranch | internal/db/store.go:532-568 | refuses an existing name; otherwise the new branch has main's head as head and base and the draft flag given, reads as main did, and nothing on main is newer than its base |
| Effects.NewBranchIsMain | internal/db/store.go:532-568 | the same of the tables: a new branch starts at main's head, reads as main, has nothing to merge and nothing to conflict with, and every other row stays |
| Effects.CommitIsRequest | internal/db/store.go:423-497 | the rows are one per path of the request, without a version for a deletion and else with a document that has the hash of the content; no document is added whose content the store or the request already has |
| Effects.CommitColumns | internal/db/store.go:409-516 | a commit moves the head of its branch only, adds one commit and its rows, and stores the hash of its own columns chained to the previous commit of the branch |
| Effects.MergeColumns | internal/db/store.go:699-780 | a merge marks the branch merged and, if it changed anything, gives main one commit with exactly the branch's net changes, the caller's name and the message of merges |
| Effects.MergeVerdict | internal/db/store.go:619-697 | a merge is refused exactly for an unknown, inactive or draft branch, conflicts exactly when a path changed on both sides, names each such path once with both versions, and else gives the sequence of main |
| Effects.SourcesAre | internal/db/store.go:966-1003 | what a rebase replays: the commits of the branch above its base, in sequence order |
| Effects.RebaseColumns | internal/db/store.go:869-945 | a rebase puts the branch on main's head and adds a commit for each replayed one, with its rows, the caller's name or "system" without one, and the sequence replayed in the message; nothing else changes |
| Effects.RebaseVerdict | internal/db/store.go:790-867 | a rebase is refused exactly for main and for an unknown or inactive branch, conflicts exactly when a path changed on both sides, and else reports the new base, head and number of replays |
| Effects.RebaserIsAuthor | internal/db/store.go:890-899 | a named caller whose rebase replays anything has a commit above the base from then on, so may not approve the branch |
| DocStore.DocStore.DeleteBranch | internal/db/store.go:1047-1074 | refuses main, unknown and inactive branches, else abandons the branch |
| DocStore.DocStore.CreateReview | internal/db/store.go:1080-1138 | refuses exactly an approval by an author of a commit above the base, else stores the verdict given, by the reviewer given, at the head |
| DocStore.DocStore.ReviewsAtHead | internal/merge/policy.go:61-97 | returns exactly the reviews at the current head, each written against the branch's present change set |
| DocStore.DocStore.FindConflicts | internal/db/store.go:685-694 | reports exactly the paths changed on both sides, each once, with both versions |
| DocStore.DocStore.Merge | internal/db/store.go:619-785 | the verdict and the tables of every case, dry run included: refusals and conflicts change nothing, a merge of nothing only marks the branch, a dry run costs one number |
| DocStore.DocStore.WriteRebase | internal/db/store.go:869-945 | the replay loop leaves the tables of the rebase specification with consecutive numbers |
| DocStore.DocStore.Rebase | internal/db/store.go:790-962 | the outcome and the tables of every case |
| DocStore.DocStore.DeleteBranches | internal/db/store.go:1711-1817 | the deletes succeed if and only if every foreign key would still hold, then leave the tables without the dead branches and count what they removed |
| DocStore.DocStore.CreateProposal | internal/db/store.go:2436-2471 | refuses exactly an unknown branch and a second open proposal on a branch |
| DocStore.DocStore.CloseProposal | internal/db/store.go:2587-2606 | closes a proposal in whatever state, and keeps its row |
| DocStore.DocStore.MergeProposal | internal/db/store.go:2608-2631 | marks the open proposal of the branch merged, if there is one, and keeps its row |
| DocStore.DocStore.CreateReviewComment | internal/db/store.go:1175-1225 | refuses exactly an unknown branch, document or review |
| DocStore.DocStore.DeleteReviewComment | internal/db/store.go:1288-1305 | deletes the comment, or reports that there is none |
| DocStore.DocStore.Purge | internal/db/store.go:1660-1831 | if a proposal or comment stands in the way the call fails and leaves every table alone, dry run or not; otherwise a branch goes if and only if it is not main, is merged or abandoned, and its head commit, or without one the branch itself, is older than the threshold; a dry run returns the same counts and changes nothing |
| Discussions.BlockedMeans | internal/db/store.go:1711-1817 | what stands in the way, in terms of the rows: a proposal or comment on a branch that is to go, a comment on a review of one, or on a version no other branch names |
| Discussions.BlockedIff | internal/db/store.go:1711-1817 | the deletes keep every foreign key if and only if no proposal or comment names a purged branch, no comment hangs on a review of one, and none names a version that no surviving row names |
| Discussions.UnblockedKeeps | internal/db/store.go:1711-1817 | a purge that is not blocked keeps every foreign key, unique review ids and one open proposal a branch |
| Discussions.NothingBlocks | internal/db/store.go:1705-1709 | without eligible branches nothing blocks, so returning early is the same |
| Scenarios.ProposalBlocksPurge | internal/db/store.go:1655-1660 | the input, run on the store: propose, merge, wait, purge; the dry run and the purge both fail |
| Views.MergeIsThreeWay | internal/db/store.go:619-785 | a conflict-free merge is a three-way merge: main becomes main overlaid with the branch's changes, which is the branch's view overlaid with main's changes; other views stay |
| Outcomes.MergeReportsConflicts | internal/db/store.go:685-697 | a merge that reaches detection reports conflicts if and only if a path changed on both sides, and then exactly those paths |
| Outcomes.DryRunAgrees | internal/db/store.go:767-771 | a dry run gives the verdict of the real merge and leaves every table as it was, but for one number |
| Outcomes.RebaseThenMergeOutcome | internal/db/store.go:790-962 | a rebase keeps the net change; merging after it never conflicts and leaves main with the tree of a direct merge |
| Views.RebaseThenMerge | internal/db/store.go:790-962 | the same for any numbers the replays and the merge were given |
| Views.RebasedMerges | internal/db/store.go:939-945 | after a rebase main has changed nothing since the base, so nothing can conflict |
| Effects.SelfApprovalAfterRebase | internal/db/store.go:1092-1103 | after a rebase an approval is refused exactly to authors of commits above main's head and, if anything was replayed, to the caller of the rebase, or "system" for a caller without a name |
| Scenarios.RebaseAllowsSelfApproval | internal/db/store.go:1077-1079 | the input, run on the store: the author of the only change may not approve it, and may once another user has rebased the branch |
| Histories.ReviewsDropForGood | internal/merge/policy.go:42-65 | a transaction that commits to a branch drops its earlier reviews for good and no other review; at every moment of every history each review that counts was written against the present change set |
| Purging.PurgeSetIs | internal/db/store.go:1679-1689 | the branches to purge, by status, name and the age of the head commit or, without one, of the branch |
| Purging.PurgeRemoves | internal/db/store.go:1677-1817 | of a purge that nothing blocks: exactly the old merged and abandoned branches other than main go, with all their commits, rows and reviews |
| Purging.PurgeKeepsSurvivors | internal/db/store.go:1714-1817 | of a purge that nothing blocks: surviving branches keep their rows, hashes, chain records and views |
| Purging.PurgeKeepsDocs | internal/db/store.go:1796-1808 | of a purge that nothing blocks: no unreferenced document remains and every version a surviving row names still has its document |
| Purging.PurgeKeeps | internal/db/store.go:1660-1831 | a purge that nothing blocks keeps the store invariant |
| Purging.PurgeNothing | internal/db/store.go:1705-1709 | without eligible branches the deletes would change nothing, so returning early is the same |
| Outcomes.PurgeCountsMean | internal/db/store.go:1711-1817 | the counts are the numbers of branches that go, of their commits, file rows and reviews, and of documents no surviving row names |
| Views.CommittedViewsStable | internal/db/store.go:400-402 | while the logs of main and of a branch are as they were up to their heads, so are the views at committed bases and heads and the previous hashes below the head |
| Views.RebaseIsLater | internal/db/store.go:790-962 | a rebase only adds to the log above the head |
| InterleavingProofs.UndisturbedStays | internal/db/store.go:400-402 | what a transaction read under its locks, and the hashes it has computed, stay right whatever others commit |
| InterleavingProofs.FinishKeeps | internal/db/store.go:394-528 | a commit point keeps the store invariant, leaves no document unnamed and only adds to history |
| Schedules.StepKeeps | internal/db/store.go:394-945 | every step of every schedule keeps locks exclusive, numbers and versions unshared, reads current and the tables sound |
| Schedules.ApartStep | internal/db/store.go:626-642 | locks are granted only when free; numbers and versions taken are new, also after rollbacks |
| Runs.CommitOrderIsSequenceOrder | internal/db/store.go:397-505 | once a transaction has committed to a branch, every transaction still writing it holds only greater numbers |
| Runs.FinishRefines | internal/db/store.go:619-785 | a transaction's checks still hold when it commits, and it does to the tables of that moment, in one step, what the request asks |
| Runs.RunIsSerial | internal/db/tx.go:22-47 | every run of every schedule has the effect on the tables of its committed requests carried out one at a time in the order of their commits, each with its checks passing on the tables it finds |
| StepEffects.FinishedCommit | internal/db/store.go:394-528 | an interleaved commit finishes on a branch still active; it moves its head to the number taken and stores the request |
| StepEffects.FinishedMerge | internal/db/store.go:619-785 | an interleaved merge finishes on a branch still active, no draft and without conflicts; a dry run changes nothing; main gets exactly the branch's changes of that moment |
| StepEffects.FinishedRebase | internal/db/store.go:790-962 | an interleaved rebase finishes on a branch still active and without conflicts, puts it on main's head of that moment, and every commit it adds is its caller's, or "system"'s without a name |
| StepEffects.FinishedBranch | internal/db/store.go:532-568 | an interleaved CreateBranch starts the branch at main's head of the moment it commits, with main's view |
| StepEffects.FinishedDelete | internal/db/store.go:1047-1074 | an interleaved DeleteBranch abandons a branch still active, and does nothing else |
| StepEffects.FinishedReview | internal/db/store.go:1080-1138 | an interleaved review is stored as given at the head of that moment; an approval by nobody who has then written above the base |
| StepEffects.RejectedMeans | internal/db/store.go:626-697 | a transaction holding its locks is rejected only for the reasons of the code |
| Runs.RunKeeps | internal/db/store.go:394-945 | after every run the store is sound, no document is orphaned, and history has only been added to |
| Runs.NoDeadlock | internal/db/store.go:626-642 | while a transaction is unfinished some transaction can take a step that is not a failure |
| Runs.StepDecreases | internal/db/store.go:895-937 | every step lessens a lexicographic measure, so no schedule of finitely many transactions is infinite |
| Runs.CanFinish | internal/db/store.go:801-817 | from any reachable state all transactions can be brought to their ends without a failure |
| Histories.HistoryKeeps | internal/db/store.go:394-1831 | over a whole history of arriving requests, interleaved statements and purges the store stays sound |
| Histories.HistoryIsStable | internal/db/store.go:397-505 | between any two moments of any history, the log of a branch that no purge has taken up to its committed head and the views at committed bases and heads do not change, and heads only rise |
| Histories.PurgeSpares | internal/db/store.go:1711-1817 | a purge leaves the log of every branch it does not take |
| ChainVerify.Verify | internal/cli/app.go:797-834 | no error means every hashed entry after the anchor matches; an error names the first that does not; a genuine chain gives none |
| ChainVerify.MatchIsDigest | internal/cli/app.go:818-820 | for distinct paths a match is equality with the chain digest |
| ChainVerify.Client.CheckLinks | internal/cli/app.go:738-763 | the loop over the entries after the anchor accepts only linked chains and every genuine one, and ends with the hash to store |
| ChainVerify.Client.Pull | internal/cli/app.go:651-767 | all cases of a pull: what it fetches, when it accepts, and which hash it stores |
| ChainVerify.PullsCompose | internal/cli/app.go:711-766 | pulling to a hashed commit of the branch and on accepts exactly when pulling at once does, and stores the same hash |
| ChainVerify.PullAgain | internal/cli/app.go:667-767 | after a rejected pull, one at the same head reports no error and keeps the old hash; one at another head accepts exactly when the entry of the rejected head has that old hash and every link from there is genuine |
| ChainTheorems.GetChain | internal/store/store.go:465-526 | sends each commit of the range once, in sequence order, with its row and its files' content hashes |
| ChainTheorems.ChainLists | internal/store/store.go:465-526 | the reply holds each commit of the range once, ascending, with its own columns and each path of its rows once with the content hash |
| ChainTheorems.ChainIsGenuine | internal/db/store.go:27-45 | the client's previous hash is the server's at every point: other branches are skipped and a missing hash restarts at Genesis on both sides |
| ChainTheorems.VerifyServer | internal/cli/app.go:771-834 | Verify reports no error on the chain of any sound store |
| ChainTheorems.HonestPull | internal/cli/app.go:711-766 | a client that stored the hash of a commit of its branch is accepted by a server that still has the branch's log up to there, and stores the tip's hash |
| ChainTheorems.HonestPullIff | internal/cli/app.go:738-763 | a client with any stored hash that passes the anchor check is accepted by an honest server if and only if it starts from the hash the branch's next commit is chained to, or that commit is missing or unhashed |
| ChainTheorems.PullNewBranch | internal/cli/app.go:490-531 | after checking out a new branch, a pull from an honest server fails if and only if the branch has a commit by then |
| ChainTheorems.VerifyIsSound | internal/cli/app.go:797-834 | two accepted, fully hashed lists of one branch with the same tip hash agree on every entry after the later anchor, if the texts hashed do not collide |
| Scenarios.NewBranchIsAccused | internal/cli/app.go:490-531 | the input, run on the store, the server's chain and the client: a commit by somebody else to a new branch fails the client's pull, with a hash that has no collisions, and the pull after it succeeds |
| EndToEnd.AnyHistoryVerifies | internal/db/store.go:394-1831 | whatever has happened to the store, the chain the server sends is genuine for every branch |
| EndToEnd.AnyLaterPullAccepts | internal/cli/app.go:711-766 | a client that stored a hash of its branch at one moment of a history is accepted at any later one before a purge takes the branch, and stores the tip's hash |
| IfSyntax.RenderStandsFor | internal/ciconfig/expr.go:8-19 | writing an expression with the parentheses it needs loses nothing |
| IfParser.ReadOr | internal/ciconfig/expr.go:66-83 | a parse reads the text of a well-formed tree from its position, then blanks, and stays in bounds without going back; errors too |
| IfParser.Parser.ParseOr | internal/ciconfig/expr.go:66-83 | the evaluating parser succeeds, fails and moves exactly as the text alone determines, and returns the value of the tree read |
| IfParser.Parser.ParseAnd | internal/ciconfig/expr.go:86-103 | the same one level down |
| IfParser.Parser.ParseComparison | internal/ciconfig/expr.go:106-155 | the same for comparisons and parentheses |
| IfParser.Parser.ParseValue | internal/ciconfig/expr.go:159-183 | returns the value of the literal or field read, or the position of the error |
| IfParser.EvalIf | internal/ciconfig/expr.go:22-37 | returns the meaning of the text |
| IfTheorems.OrComplete | internal/ciconfig/expr.go:66-83 | every text of the grammar is read as exactly its tree |
| IfMeaning.TextsEvaluate | internal/ciconfig/expr.go:22-37 | every text of the grammar, with any blanks inside and any white space of Unicode around it, evaluates to its meaning: && binds tighter than or, both to the left |
| IfMeaning.FieldsMean | internal/ciconfig/expr.go:215-228 | each of the four field references reads its own field of the trigger, with ==, with != and alone |
| IfMeaning.LiteralsMean | internal/ciconfig/expr.go:159-195 | a literal in either quotes is its text |
| IfMeaning.OrMeans | internal/ciconfig/expr.go:66-83 | texts joined by || have the disjunction of their values |
| IfMeaning.AndMeans | internal/ciconfig/expr.go:86-103 | comparisons joined by && have the conjunction of their values |
| IfMeaning.ParensMean | internal/ciconfig/expr.go:106-124 | parentheses keep the value |
| IfMeaning.BlankMeans | internal/ciconfig/expr.go:22-26 | white space alone is no condition |
| IfMeaning.RenderedEvaluates | internal/ciconfig/expr.go:22-37 | every expression evaluates to its meaning when rendered |
| IfMeaning.AcceptedIsText | internal/ciconfig/expr.go:31-36 | whatever is accepted is, in full, the text of a tree with the value returned |
| IfMeaning.AcceptedIff | internal/ciconfig/expr.go:22-37 | success does not depend on the trigger: exactly blank texts and texts of the grammar succeed |
| IfMeaning.Unambiguous | internal/ciconfig/expr.go:66-155 | a text has one tree |
| CIJobs.StepKeeps | internal/db/ci_jobs.go:92-298 | every handler keeps: tokens only on claimed jobs and unshared, one claimed job per pod, a heartbeat absent or not before its claim |
| CIJobs.TokenIsFenced | internal/db/ci_jobs.go:106-122 | once a job is requeued or completed, its token never authenticates again in any run, for any job |
| CIJobs.OneTokenOnePod | internal/db/ci_jobs.go:173-196 | in every reachable state a job has at most one live token, no two jobs share one, and a pod holds at most one claimed job |
| CIJobs.JobsStay | internal/db/ci_jobs.go:211-298 | no job is lost, creation times stay, passed and failed jobs are never touched again |
| CIJobs.LiveLeaseIsKept | internal/db/ci_jobs.go:270-283 | from its claim on, a job whose last claim or accepted heartbeat is at most two minutes old at every reap, and of which no completion is accepted, keeps its claim, its pod and its token, which lives for a day |
| CIJobs.ReapIsExact | internal/db/ci_jobs.go:270-283 | after any run from before a job was inserted, the next reap requeues it, without claim, pod or token, if and only if it is claimed and its last claim or accepted heartbeat, as the run tells it, is more than two minutes ago; otherwise it is untouched |
| CIJobs.CompletedMeans | internal/db/ci_jobs.go:209-220 | an accepted completion stores passed for "passed" and failed for "failed", with the log URL and message, and drops the token |
| CIScheduler.BearerToken | cmd/ci-scheduler/main.go:624-630 | a header yields a token exactly when it is the prefix followed by a non-empty token |
| CIScheduler.Scheduler.SelectOldest | internal/db/ci_jobs.go:176-185 | picks an oldest queued job exactly when one is queued and the pod holds no claim |
| CIScheduler.Scheduler.HandleClaim | cmd/ci-scheduler/main.go:495-547 | claims an oldest queued job and hands out a working token; a failure after the claim leaves the job claimed without one |
| CIScheduler.Scheduler.LookupRequestToken | internal/db/ci_jobs.go:106-122 | finds a claimed job with the unexpired token, if there is one |
| CIScheduler.Scheduler.HandleHeartbeat | cmd/ci-scheduler/main.go:551-573 | acts exactly when the token authenticates for this job |
| CIScheduler.Scheduler.HandleComplete | cmd/ci-scheduler/main.go:577-619 | completes exactly when the token authenticates for this job and the status is passed or failed, with the right response otherwise |
| CIScheduler.Scheduler.ReapStaleCIJobs | internal/db/ci_jobs.go:270-298 | requeues exactly the claimed jobs whose last heartbeat, or without one whose claim, is more than two minutes ago, clears their seven columns and returns them |
| Outbox.PostsAreBounded | internal/events/outbox.go:119-256 | in every run a row is posted at most ten times, and at most once more than it has failed |
| Outbox.FinishedForGood | internal/events/outbox.go:124-136 | a row delivered, failed ten times, or gone and not claimed is never posted again, whatever is resumed |
| Outbox.GoneRowIsPostedOnce | internal/events/outbox.go:184-222 | a row deleted with its subscription never comes back, and is posted once more if it is claimed then, and not at all otherwise |
| Outbox.DeliveryProgress | internal/events/outbox.go:184-256 | a delivery with a URL finishes the row or uses up one attempt; the wait is exactly 2^attempts seconds and the tenth failure suspends the subscription; a row that has gone is posted all the same |
| Outbox.ClaimIsDue | internal/events/outbox.go:120-136 | a claim takes rows that are undelivered, due and failed less than ten times, of subscriptions that exist, are not suspended and are webhooks, with their present URL, earliest first |
| Outbox.ClaimIsFull | internal/events/outbox.go:120-136 | such a row is left out only for fifty earlier ones |
| Outbox.ClaimPostpones | internal/events/outbox.go:165-175 | exactly the rows taken are put five minutes off |
| Outbox.PostsAreClaimed | internal/events/outbox.go:106-115 | nothing is posted but the next row of the last claim |
| Outbox.RowsGo | internal/events/outbox.go:258-264 | a row goes only with its subscription, or a week after its delivery |
| Outbox.Dispatcher.SelectDue | internal/events/outbox.go:120-136 | the batch holds due rows of live webhook subscriptions, earliest first, leaving none out while there is room |
| Outbox.Dispatcher.ClaimOutboxBatch | internal/events/outbox.go:119-181 | returns such a batch and puts exactly its rows five minutes off |
| Outbox.Dispatcher.MarkFailed | internal/events/outbox.go:226-256 | sets the attempt count and the capped backoff of a row that is still there, and suspends at ten |
| Outbox.Dispatcher.DeliverWebhook | internal/events/outbox.go:184-222 | leaves the tables of the delivery specification for every outcome |
| Outbox.Dispatcher.ProcessOutboxBatch | internal/events/outbox.go:106-115 | a pass is a run of the model: one claim, then one delivery per claimed row, in order |
| ScrubLogs.NoneCreated | internal/executor/executor.go:358-370 | a replacement creates no occurrence of an inert secret and leaves none of the secret replaced |
| ScrubLogs.ReplaceAllCuts | internal/executor/executor.go:367 | the replacement cuts the text at each first occurrence of the secret, from left to right, and puts "***" in its place |
| ScrubLogs.Scrubbed | internal/executor/executor.go:358-370 | in whatever order the map yields them, no inert secret remains; a log without secrets is unchanged |
| ScrubLogs.ScrubbedIff | internal/executor/executor.go:352-357 | a secret is scrubbed from every log, in every order and beside any other secrets, if and only if it has no '*' at either end and no "***" inside |
| ScrubLogs.LeadingStarSurvives | internal/executor/executor.go:358-370 | a secret beginning with '*' survives in the log made of the secret and its rest |
| ScrubLogs.TrailingStarSurvives | internal/executor/executor.go:358-370 | a secret ending in '*' survives in the log made of its beginning and the secret |
| ScrubLogs.InnerMaskSurvives | internal/executor/executor.go:358-370 | a secret with "***" inside is put together by masking a later secret |
| ScrubLogs.StarFreeIsInert | internal/executor/executor.go:352-357 | a secret without '*' is such a secret |

## Left out

- DocStore.DocStore.Commit: a request that names a path twice is not modelled. The code accepts it, and then the row order of one sequence decides what the path holds, which the queries leave open; `CommitHashing.OrderFreeIff` says when the hash can tell.
- Interleaving: a purge runs while no transaction is under way; requests on other repositories, which share the sequence counter, are left out.
- Views.ReaderSeesView: a branch read at a sequence below its head is not claimed to be stable, because a rebase raises the base and with it what main contributes to such a reading.
- DocStore.DocStore.ReviewsAtHead: check runs, proposals, roles and owners of a policy input are left out; the reviews are read in one step with the head.
- DocStore: organisations, roles, issues, releases and subscriptions are single-row operations, and so are the texts of proposals and comments; deleting a repository, the draft and auto-merge flags and content types are left out as well.
- DocStore.DocStore.Purge: check runs and external blobs are left out; blob keys are content hashes shared across repositories, and the blobs of unreferenced documents are deleted before the rows, so a purge that fails has already lost them. Comments of another repository on a document of this one are left out.
- ChainVerify.Client.Pull: fetch errors, the tree sync and the local files are left out; the server's replies are a function parameter. `ChainTheorems.PullNewBranch` is about a new branch; switching to an existing one, and a merge or rebase by the client, also keep the old hash, and then the anchor check fails unless the hashes happen to be equal.
- IfParser.EvalIf: error texts are left out, an error is its position.
- CIScheduler.Scheduler.HandleComplete: a body that is not JSON is left out; looking a token up and acting on the job is one step.
- CIScheduler.Scheduler.HandleClaim: pod authentication and skipping rows locked by a concurrent claim are left out; handlers are atomic.
- Outbox.Dispatcher.ProcessOutboxBatch: failing database writes, several dispatchers, signatures and redirects are left out; a row whose subscription has no URL is skipped again and again and never posted.
- HTTP, JSON and YAML handling, SQL itself, BuildKit, Kubernetes, key management, the user interface and metrics are left out as plumbing.
