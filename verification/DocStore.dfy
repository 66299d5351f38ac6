/**
 * The store of internal/db/store.go: one repository's tables and the transactions over them. A
 * transaction that fails or is a dry run leaves every table as it was, but a sequence number it
 * took stays taken (internal/db/tx.go). The clock is a parameter, and a random UUID is a counter.
 */
module DocStore {
  import opened Wrappers
  import opened Timestamps
  import opened CommitHashing
  import opened Tables
  import opened Transactions
  import opened Resolving
  import opened Views
  import opened Purging
  import opened Discussions
  import opened StoreSpecs
  import opened Effects

  /** What a rollback restores: every table, but not the sequence counter. */
  datatype Snapshot = Snapshot(
    branches: map<string, Branch>, commits: map<nat, Commit>, files: FileTable,
    docs: map<nat, Doc>, reviews: seq<Review>)

  /** What a purge may rely on, whatever the threshold. */
  lemma PurgeFacts(e: Env, r: Repo, d: Discussion, id: nat, threshold: Timestamp)
    requires Sound(e, r) && DiscussionOk(r, d, id)
    ensures var dead := PurgeSet(r.branches, r.commits, threshold);
      var s := Without(r, dead);
      && Sound(e, s) && Below(s.docs, id) && |r.branches| - |r.branches - dead| == |dead|
      && (RefsOk(s, d) <==> !Blocked(r, d, dead))
      && (RefsOk(s, d) ==> DiscussionOk(s, d, id))
      && (dead == {} ==> s == r && !Blocked(r, d, dead))
      && (forall b :: b in s.branches <==>
            b in r.branches
            && !(b != "main" && (r.branches[b].status == Status.Merged || r.branches[b].status == Abandoned)
                 && (if r.branches[b].head in r.commits then r.commits[r.branches[b].head].createdAt
                     else r.branches[b].createdAt).Before(threshold)))
  {
    hide Sound, NoOrphans, Without, PurgeSet, RefsOk, Blocked, UniqueIDs, Timestamp.Before;
    var dead := PurgeSet(r.branches, r.commits, threshold);
    PurgeSetMembers(r, threshold);
    PurgeSetIs(r, threshold);
    WithoutBranches(r, dead);
    PurgeSound(e, r, dead, id);
    BlockedIff(r, d, id, dead);
    if !Blocked(r, d, dead) {
      UnblockedKeeps(r, d, id, dead);
    }
    if dead == {} {
      SoundOrphans(e, r);
      NothingBlocks(r, d, id);
    }
  }

  class DocStore {
    const repo: string
    const sha: Sha
    var branches: map<string, Branch>
    var commits: map<nat, Commit>
    var files: FileTable
    var docs: map<nat, Doc>
    var reviews: seq<Review>
    var proposals: map<nat, Proposal>
    var comments: map<nat, Comment>
    var next: nat
    var nextID: nat

    ghost function State(): Repo
      reads this
    {
      Repo(branches, commits, files, docs, reviews, next)
    }

    ghost function Talk(): Discussion
      reads this
    {
      Discussion(proposals, comments)
    }

    ghost function Here(): Env { Env(repo, Digester(sha)) }

    ghost predicate Valid()
      reads this
    {
      Sound(Here(), State()) && Below(docs, nextID) && DiscussionOk(State(), Talk(), nextID)
    }

    /** CreateRepo: an empty log and the main branch at sequence 0. */
    constructor (repo: string, sha: Sha, at: Timestamp)
      ensures Valid() && this.repo == repo && this.sha == sha
      ensures State() == EmptyRepo(at) && proposals == map[] && comments == map[]
      ensures branches == map["main" := Branch(0, 0, Active, false, at)] && commits == map[] && files == map[]
      ensures docs == map[] && reviews == [] && next == 1
    {
      this.repo, this.sha := repo, sha;
      branches, commits, files, docs, reviews := map[MAIN := Branch(0, 0, Active, false, at)], map[], map[], map[], [];
      proposals, comments := map[], map[];
      next, nextID := 1, 0;
    }

    method Begin() returns (tx: Snapshot)
      ensures tx == Snapshot(branches, commits, files, docs, reviews)
    {
      tx := Snapshot(branches, commits, files, docs, reviews);
    }

    method Rollback(tx: Snapshot)
      modifies this`branches, this`commits, this`files, this`docs, this`reviews
      ensures State() == Repo(tx.branches, tx.commits, tx.files, tx.docs, tx.reviews, next)
    {
      branches, commits, files, docs, reviews := tx.branches, tx.commits, tx.files, tx.docs, tx.reviews;
    }

    /** "INSERT INTO commits ... RETURNING sequence": the hash is still NULL. */
    method InsertCommit(b: string, message: string, author: string, at: Timestamp) returns (n: nat)
      modifies this`commits, this`next
      ensures n == old(next) && next == n + 1
      ensures commits == old(commits)[n := Tables.Commit(b, message, author, at, None)]
    {
      n := next;
      next := next + 1;
      commits := commits[n := Tables.Commit(b, message, author, at, None)];
    }

    method InsertFile(n: nat, b: string, row: FileRow)
      modifies this`files
      ensures files == old(files)[n := Rows(b,
        (if n in old(files) then old(files)[n].changes else map[])[row.path := row.version])]
    {
      var changes := if n in files then files[n].changes else map[];
      files := files[n := Rows(b, changes[row.path := row.version])];
    }

    method InsertFiles(n: nat, b: string, l: seq<FileRow>)
      requires n !in files && l != []
      modifies this`files
      ensures files == old(files)[n := Rows(b, ToChanges(l))]
    {
      for i := 0 to |l|
        invariant files == if i == 0 then old(files) else old(files)[n := Rows(b, ToChanges(l[..i]))]
      {
        assert l[..i + 1][..i] == l[..i];
        InsertFile(n, b, l[i]);
      }
      assert l[..|l|] == l;
    }

    /** The files of a commit as CommitHash takes them, with the content hash of each version. */
    method HashFiles(l: seq<FileRow>) returns (hashFiles: seq<File>)
      requires DistinctRows(l)
      ensures DistinctPaths(hashFiles) && ToMap(hashFiles) == Contents(docs, ToChanges(l))
    {
      hashFiles := [];
      for i := 0 to |l|
        invariant hashFiles == FilesOf(docs, l[..i])
      {
        hashFiles := hashFiles + [File(l[i].path, ContentOf(docs, l[i].version))];
      }
      assert l[..|l|] == l;
      FilesOfMean(docs, l);
    }

    /** fetchPrevCommitHash, CommitHash and updateCommitHash. */
    method StampHash(b: string, n: nat, message: string, author: string, at: Timestamp, hashFiles: seq<File>)
      returns (hex: string)
      requires DistinctPaths(hashFiles)
      modifies this`commits
      ensures hex == Here().digest(
        Record(PrevHash(old(commits), b, n), n, repo, b, author, message, at, ToMap(hashFiles)))
      ensures commits == old(commits)[n := Tables.Commit(b, message, author, at, Some(hex))]
    {
      hex := CommitHash(sha, PrevHash(commits, b, n), n, repo, b, author, message, at, hashFiles);
      commits := commits[n := Tables.Commit(b, message, author, at, Some(hex))];
    }

    // -------------------------------------------------------------------------
    // Commit
    // -------------------------------------------------------------------------

    method ResolveFile(ghost docs0: map<nat, Doc>, ghost p: Resolution, f: FileChange)
      returns (version: Option<nat>, fileHash: string)
      requires docs == docs0 + p.added && nextID == p.nextVersion
      modifies this`docs, this`nextID
      ensures var q := ResolveOne(sha, docs0, p, f);
        && docs == docs0 + q.added && nextID == q.nextVersion && q.rows == p.rows[f.path := version]
      ensures fileHash == HashOfContent(sha, f.content)
    {
      version, fileHash := None, "";
      if f.content.Some? {
        fileHash := sha(f.content.value);
        version := FindDoc(docs, fileHash, nextID);
        if version.None? {
          version := Some(nextID);
          docs := docs[nextID := Doc(fileHash)];
          nextID := nextID + 1;
        }
      }
    }

    method InsertChanges(n: nat, b: string, changes: seq<FileChange>)
      returns (versions: seq<FileRow>, hashFiles: seq<File>)
      requires n !in files && changes != []
      modifies this`files, this`docs, this`nextID
      ensures var q := Resolve(sha, old(docs), old(nextID), changes);
        && docs == old(docs) + q.added && nextID == q.nextVersion
        && files == old(files)[n := Rows(b, q.rows)] && ToChanges(versions) == q.rows
      ensures hashFiles == RequestFiles(sha, changes)
    {
      hide ResolveOne;
      versions, hashFiles := [], [];
      ghost var q := Resolve(sha, docs, nextID, changes[..0]);
      for i := 0 to |changes|
        invariant q == Resolve(sha, old(docs), old(nextID), changes[..i])
        invariant docs == old(docs) + q.added && nextID == q.nextVersion
        invariant files == if i == 0 then old(files) else old(files)[n := Rows(b, q.rows)]
        invariant i == 0 ==> q.rows == map[]
        invariant ToChanges(versions) == q.rows
        invariant hashFiles == RequestFiles(sha, changes[..i])
      {
        var f := changes[i];
        assert changes[..i + 1][..i] == changes[..i];
        var version, fileHash := ResolveFile(old(docs), q, f);
        InsertFile(n, b, FileRow(f.path, version));
        assert (versions + [FileRow(f.path, version)])[..|versions|] == versions;
        versions := versions + [FileRow(f.path, version)];
        hashFiles := hashFiles + [File(f.path, fileHash)];
        q := ResolveOne(sha, old(docs), q, f);
      }
      assert changes[..|changes|] == changes;
    }

    method WriteCommit(b: string, author: string, message: string, at: Timestamp, changes: seq<FileChange>)
      returns (n: nat, versions: seq<FileRow>, hex: string)
      requires b in branches && changes != [] && DistinctChanges(changes) && next !in files
      modifies this
      ensures var q := Resolve(sha, old(docs), old(nextID), changes);
        && CommitWrites(Here(), old(State()), sha, b, author, message, at, changes, q, hex, State())
        && nextID == q.nextVersion && ToChanges(versions) == q.rows && n == old(next)
      ensures Talk() == old(Talk())
    {
      hide Resolve, PrevHash, HashesOf, ToMap, Digest;
      n := InsertCommit(b, message, author, at);
      var hashFiles;
      versions, hashFiles := InsertChanges(n, b, changes);
      branches := branches[b := branches[b].(head := n)];
      RequestFilesMean(sha, changes);
      hex := StampHash(b, n, message, author, at, hashFiles);
    }

    method Commit(b: string, author: string, message: string, at: Timestamp, changes: seq<FileChange>)
      returns (res: Result<CommitResponse, StoreError>)
      requires Valid() && changes != [] && DistinctChanges(changes)
      modifies this
      ensures Valid() && Talk() == old(Talk())
      ensures b !in old(branches) ==> res == Err(BranchNotFound)
      ensures b in old(branches) && old(branches)[b].status != Active ==> res == Err(BranchNotActive)
      ensures res.Err? ==> State() == old(State())
      ensures b in old(branches) && old(branches)[b].status == Active ==>
        var r, q := old(State()), Resolve(sha, old(docs), old(nextID), changes);
        && State() == CommitTo(Here(), Alloc(r, 1), b, author, message, at, r.next, q.rows, q.added)
        && Contents(docs, q.rows) == HashesOf(sha, changes)
        && res == Ok(CommitResponse(r.next, res.value.versions, res.value.commitHash))
        && ToChanges(res.value.versions) == q.rows
        && r.next in commits && commits[r.next].hash == Some(res.value.commitHash)
    {
      hide Sound, AddedOk, RowsOk, Resolve, Contents, HashesOf, Below, CommitTo, CommitWrites, DistinctChanges,
        ToChanges, DiscussionOk;
      var tx := Begin();
      if b !in branches {
        Rollback(tx);
        return Err(BranchNotFound);
      }
      if branches[b].status != Active {
        Rollback(tx);
        return Err(BranchNotActive);
      }
      ghost var r, q := State(), Resolve(sha, docs, nextID, changes);
      SoundNext(Here(), r, b);
      ResolveMeans(sha, docs, nextID, changes);
      var n, versions, hex := WriteCommit(b, author, message, at, changes);
      CommitIsSpec(Here(), r, sha, b, author, message, at, changes, q, hex, State());
      GrowthKeeps(r, State(), Talk(), old(nextID), nextID);
      res := Ok(CommitResponse(n, versions, hex));
    }

    // -------------------------------------------------------------------------
    // Branches and reviews
    // -------------------------------------------------------------------------

    method CreateBranch(name: string, draft: bool, at: Timestamp) returns (res: Result<nat, StoreError>)
      requires Valid()
      modifies this
      ensures Valid() && Talk() == old(Talk())
      ensures name in old(branches) ==> res == Err(BranchExists) && State() == old(State())
      ensures name !in old(branches) ==>
        && "main" in old(branches) && res == Ok(old(branches)["main"].head)
        && State() == BranchOff(old(State()), name, draft, at)
        && branches == old(branches)[name := Branch(res.value, res.value, Active, draft, at)]
        && View(State(), name) == View(old(State()), "main") && MainChanges(State(), name) == map[]
    {
      hide Sound, NoOrphans, Below, DiscussionOk;
      SoundNext(Here(), State(), name);
      var tx := Begin();
      var mainHead := branches[MAIN].head;
      if name in branches {
        Rollback(tx);
        return Err(BranchExists);
      }
      BranchOffSound(Here(), State(), name, draft, at);
      NewBranchIsMain(Here(), State(), name, draft, at);
      branches := branches[name := Branch(mainHead, mainHead, Active, draft, at)];
      GrowthKeeps(old(State()), State(), Talk(), nextID, nextID);
      res := Ok(mainHead);
    }

    /** Abandons a branch; None is success. */
    method DeleteBranch(b: string) returns (err: Option<StoreError>)
      requires Valid()
      modifies this
      ensures Valid() && Talk() == old(Talk())
      ensures b == MAIN ==> err == Some(BranchNotActive)
      ensures b != MAIN && b !in old(branches) ==> err == Some(BranchNotFound)
      ensures b != MAIN && b in old(branches) && old(branches)[b].status != Active ==> err == Some(BranchNotActive)
      ensures err.Some? ==> State() == old(State())
      ensures b != MAIN && b in old(branches) && old(branches)[b].status == Active ==>
        && err == None && State() == WithStatus(old(State()), b, Abandoned)
        && branches == old(branches)[b := old(branches)[b].(status := Abandoned)]
    {
      hide Sound, NoOrphans, Below, DiscussionOk;
      if b == MAIN {
        return Some(BranchNotActive);
      }
      var tx := Begin();
      if b !in branches {
        Rollback(tx);
        return Some(BranchNotFound);
      }
      if branches[b].status != Active {
        Rollback(tx);
        return Some(BranchNotActive);
      }
      WithStatusSound(Here(), State(), b, Abandoned);
      branches := branches[b := branches[b].(status := Abandoned)];
      GrowthKeeps(old(State()), State(), Talk(), nextID, nextID);
      err := None;
    }

    method CreateReview(b: string, reviewer: string, verdict: Verdict) returns (res: Result<nat, StoreError>)
      requires Valid()
      modifies this
      ensures Valid() && Talk() == old(Talk())
      ensures b !in old(branches) ==> res == Err(BranchNotFound)
      ensures b in old(branches) ==> (res.Err? <==> verdict == Approved && AuthoredAbove(old(State()), b, reviewer))
      ensures b in old(branches) && res.Err? ==> res == Err(SelfApproval)
      ensures res.Err? ==> State() == old(State())
      ensures b in old(branches) && verdict == Approved ==>
        (res.Err? <==>
          exists n :: n in commits && commits[n].branch == b && n > branches[b].base && commits[n].author == reviewer)
      ensures res.Ok? ==>
        && b in old(branches) && res.value == old(branches)[b].head
        && State() == AddReview(old(State()), b, old(nextID), reviewer, verdict)
        && reviews == old(reviews) + [Review(old(nextID), b, reviewer, res.value, verdict, ChangesOf(State(), b))]
    {
      hide Sound, NoOrphans, Below, Net, DiscussionOk;
      var tx := Begin();
      if b !in branches {
        Rollback(tx);
        return Err(BranchNotFound);
      }
      var head, base := branches[b].head, branches[b].base;
      if verdict == Approved {
        if exists n :: n in commits && CountsAsAuthor(commits, b, base, reviewer, n) {
          Rollback(tx);
          return Err(SelfApproval);
        }
      }
      AddReviewSound(Here(), State(), b, nextID, reviewer, verdict);
      ReviewKeeps(State(), Talk(), nextID, b, reviewer, verdict);
      reviews := reviews + [Review(nextID, b, reviewer, head, verdict, Net(files, b, base, next))];
      nextID := nextID + 1;
      res := Ok(head);
    }

    /** ListReviews at the current head, as AssembleInput passes them to the policies. */
    method ReviewsAtHead(b: string) returns (res: Option<seq<Review>>)
      requires Valid()
      ensures res.None? <==> b !in branches
      ensures b in branches ==>
        && (forall v :: v in res.value <==> v in reviews && v.branch == b && v.sequence == branches[b].head)
        && (forall v :: v in res.value ==> v.seen == ChangesOf(State(), b))
    {
      if b !in branches {
        return None;
      }
      var head, inputs := branches[b].head, [];
      for i := 0 to |reviews|
        invariant forall v :: v in inputs <==> v in reviews[..i] && v.branch == b && v.sequence == head
      {
        assert reviews[..i + 1] == reviews[..i] + [reviews[i]];
        if reviews[i].branch == b && reviews[i].sequence == head {
          inputs := inputs + [reviews[i]];
        }
      }
      assert reviews[..|reviews|] == reviews;
      SeenIsCurrent(Here(), State(), b);
      res := Some(inputs);
    }

    // -------------------------------------------------------------------------
    // Merge
    // -------------------------------------------------------------------------

    method FindConflicts(ours: Changes, theirs: Changes) returns (conflicts: seq<MergeConflict>)
      ensures Reports(ours, theirs, conflicts)
    {
      hide Reports;
      var l := Range(ours);
      conflicts := [];
      NothingToReport(theirs);
      for i := 0 to |l|
        invariant Reports(ToChanges(l[..i]), theirs, conflicts)
      {
        assert l[..i + 1][..i] == l[..i];
        var p := l[i].path;
        ToChangesOther(l[..i], p);
        ReportsSnoc(ToChanges(l[..i]), theirs, conflicts, l[i]);
        if p in theirs {
          conflicts := conflicts + [MergeConflict(p, theirs[p], l[i].version)];
        }
      }
      assert l[..|l|] == l;
    }

    method WriteMerge(b: string, author: string, at: Timestamp, ours: Changes) returns (n: nat)
      requires b in branches && MAIN in branches && b != MAIN && next !in files && next !in commits && ours != map[]
      modifies this
      ensures n == old(next) && next == n + 1 && docs == old(docs) && nextID == old(nextID) && Talk() == old(Talk())
      ensures State() == WithStatus(
        Advance(Here(), Alloc(old(State()), 1), MAIN, author, MergeMessage(b), at, n, ours), b, Status.Merged)
    {
      hide PrevHash, Digester, ToMap, ToChanges, MergeMessage, DistinctPaths, DistinctRows, Contents, WithStatus,
        Advance;
      n := InsertCommit(MAIN, MergeMessage(b), author, at);
      var rows := Range(ours);
      ListsNonempty(rows, ours);
      InsertFiles(n, MAIN, rows);
      branches := branches[MAIN := branches[MAIN].(head := n)];
      branches := branches[b := branches[b].(status := Status.Merged)];
      rows := Range(ours);
      var hashFiles := HashFiles(rows);
      var hex := StampHash(MAIN, n, MergeMessage(b), author, at, hashFiles);
      MergeWritesIs(Here(), old(State()), b, author, at, ours, hex, State());
    }

    /** Merges b into main, or reports the conflicts; a dry run only uses up a sequence number. */
    method Merge(b: string, author: string, at: Timestamp, dryRun: bool) returns (res: MergeResult)
      requires Valid() && b != MAIN
      modifies this
      ensures Valid() && Talk() == old(Talk())
      ensures MergeOutcome(Here(), old(State()), b, author, at, dryRun, res, State())
    {
      hide Sound, NoOrphans, Below, Net, MergeInto, Advance, Reports, DiscussionOk;
      ghost var r := State();
      SoundNext(Here(), r, b);
      var tx := Begin();
      var mainHead := branches[MAIN].head;
      if b !in branches {
        Rollback(tx);
        return MergeFailed(BranchNotFound);
      }
      if branches[b].status != Active {
        Rollback(tx);
        return MergeFailed(BranchNotActive);
      }
      if branches[b].draft {
        Rollback(tx);
        return MergeFailed(BranchDraft);
      }
      var base := branches[b].base;
      var ours, theirs := Net(files, b, base, next), Net(files, MAIN, base, next);
      MergeSound(Here(), r, b, author, at);
      if ours == map[] {
        if dryRun {
          Rollback(tx);
          return MergedAt(mainHead);
        }
        branches := branches[b := branches[b].(status := Status.Merged)];
        GrowthKeeps(r, State(), Talk(), nextID, nextID);
        return MergedAt(mainHead);
      }
      var conflicts := FindConflicts(ours, theirs);
      ReportsNothing(ours, theirs, conflicts);
      if |conflicts| > 0 {
        Rollback(tx);
        return MergeConflicts(conflicts);
      }
      var n := WriteMerge(b, author, at, ours);
      MergedStateIs(Here(), r, b, author, at);
      if dryRun {
        Rollback(tx);
      }
      GrowthKeeps(r, State(), Talk(), nextID, nextID);
      res := MergedAt(n);
    }

    // -------------------------------------------------------------------------
    // Rebase
    // -------------------------------------------------------------------------

    /** Replays one group as a new commit; the head is moved after the last one. */
    method ReplayGroup(b: string, author: string, at: Timestamp, g: Group) returns (n: nat)
      requires DistinctRows(g.files) && g.files != [] && next !in files && next !in commits
      modifies this`commits, this`files, this`next
      ensures n == old(next) && next == n + 1
      ensures var s := AddCommit(Here(), old(State()), b, author, ReplayMessage(g.seqno), at, n, ToChanges(g.files));
        commits == s.commits && files == s.files
    {
      hide PrevHash, Digester, ToMap, ToChanges, ReplayMessage, DistinctPaths, DistinctRows, Contents;
      n := InsertCommit(b, ReplayMessage(g.seqno), author, at);
      InsertFiles(n, b, g.files);
      var hashFiles := HashFiles(g.files);
      var hex := StampHash(b, n, ReplayMessage(g.seqno), author, at, hashFiles);
      StampedIsAdded(Here(), old(State()), b, author, ReplayMessage(g.seqno), at, n, ToChanges(g.files), commits);
    }

    method WriteRebase(b: string, author: string, at: Timestamp) returns (count: nat)
      requires Sound(Here(), State()) && b in branches && b != MAIN && MAIN in branches && SourcesOf(State(), b) != []
      modifies this
      ensures docs == old(docs) && nextID == old(nextID) && proposals == old(proposals) && comments == old(comments)
      ensures State() == RebasedState(Here(), old(State()), b, author, at)
      ensures count == |SourcesOf(old(State()), b)|
      ensures b in branches && branches[b].head == old(next) + count - 1
    {
      hide Sound, ReplayedTo, RebasedState, GroupSeqs, RowsAt, NoOrphans, Below, AddCommit, ReplayMessage,
        ToChanges, LogOk, IsGroups, DistinctRows, Inv, Net, Replayed, PrevHash;
      ghost var e, r, src := Here(), State(), SourcesOf(State(), b);
      SoundLog(e, r);
      var mainHead, lastSeq := branches[MAIN].head, 0;
      var groups := BranchCommitGroups(files, b, branches[b].base, next);
      count := |groups|;
      var replayAuthor := if author == "" then "system" else author;
      ReplayedBegins(e, r, b, author, at);
      for i := 0 to |groups|
        invariant next == r.next + i && branches == r.branches && docs == r.docs && reviews == r.reviews
        invariant nextID == old(nextID) && proposals == old(proposals) && comments == old(comments)
        invariant (i > 0 ==> lastSeq == r.next + i - 1)
        invariant State() == r.(commits := ReplayedTo(e, r, b, author, at, i).commits,
                                files := ReplayedTo(e, r, b, author, at, i).files, next := r.next + i)
      {
        GroupIsSource(r.files, b, r.branches[b].base, r.next, groups, i);
        ReplayedNext(e, r, b, author, at, i, State());
        lastSeq := ReplayGroup(b, replayAuthor, at, groups[i]);
      }
      branches := branches[b := branches[b].(base := mainHead, head := lastSeq)];
      ReplayedEnds(e, r, b, author, at, State());
    }

    method Rebase(b: string, author: string, at: Timestamp) returns (res: RebaseResult)
      requires Valid()
      modifies this
      ensures Valid() && Talk() == old(Talk())
      ensures RebaseOutcome(Here(), old(State()), b, author, at, res, State())
    {
      hide Sound, NoOrphans, Below, Net, Reports, RebasedState, GroupSeqs, Inv, LogOk, HeadsOk, MainOk, Fold, RowsAt,
        DiscussionOk;
      if b == MAIN {
        return RebaseFailed(BranchNotActive);
      }
      ghost var r := State();
      SoundNext(Here(), r, b);
      var tx := Begin();
      var mainHead := branches[MAIN].head;
      if b !in branches {
        Rollback(tx);
        return RebaseFailed(BranchNotFound);
      }
      if branches[b].status != Active {
        Rollback(tx);
        return RebaseFailed(BranchNotActive);
      }
      var base := branches[b].base;
      var ours, theirs := Net(files, b, base, next), Net(files, MAIN, base, next);
      SoundLog(Here(), r);
      SourcesNonempty(r, b);
      RebaseSound(Here(), r, b, author, at);
      if ours == map[] {
        EmptyRebase(Here(), r, b, author, at);
        branches := branches[b := branches[b].(base := mainHead, head := mainHead)];
        GrowthKeeps(r, State(), Talk(), nextID, nextID);
        return RebasedTo(mainHead, mainHead, 0);
      }
      var conflicts := FindConflicts(ours, theirs);
      ReportsNothing(ours, theirs, conflicts);
      if |conflicts| > 0 {
        Rollback(tx);
        return RebaseConflicts(conflicts);
      }
      var count := WriteRebase(b, author, at);
      GrowthKeeps(r, State(), Talk(), nextID, nextID);
      res := RebasedTo(mainHead, branches[b].head, count);
    }

    // -------------------------------------------------------------------------
    // Proposals and comments
    // -------------------------------------------------------------------------

    /** Opens a proposal; a branch has at most one open proposal. */
    method CreateProposal(b: string) returns (res: Result<nat, StoreError>)
      requires Valid()
      modifies this`proposals, this`nextID
      ensures Valid()
      ensures b !in branches ==> res == Err(BranchNotFound)
      ensures b in branches ==> (res.Err? <==> HasOpenProposal(old(proposals), b))
      ensures b in branches && res.Err? ==> res == Err(ProposalExists)
      ensures res.Err? ==> proposals == old(proposals)
      ensures res.Ok? ==>
        res.value !in old(proposals) && proposals == old(proposals)[res.value := Proposal(b, ProposalOpen)]
    {
      hide Sound;
      if HasOpenProposal(proposals, b) {
        return Err(ProposalExists);
      }
      if b !in branches {
        return Err(BranchNotFound);
      }
      res := Ok(nextID);
      proposals := proposals[nextID := Proposal(b, ProposalOpen)];
      nextID := nextID + 1;
    }

    /** Closes a proposal in whatever state; None is success. The row stays. */
    method CloseProposal(p: nat) returns (err: Option<StoreError>)
      requires Valid()
      modifies this`proposals
      ensures Valid()
      ensures p !in old(proposals) ==> err == Some(ProposalNotFound) && proposals == old(proposals)
      ensures p in old(proposals) ==>
        err == None && proposals == old(proposals)[p := old(proposals)[p].(state := ProposalClosed)]
    {
      hide Sound;
      if p !in proposals {
        return Some(ProposalNotFound);
      }
      proposals := proposals[p := proposals[p].(state := ProposalClosed)];
      err := None;
    }

    /** Marks the open proposal of a branch as merged, if there is one. The row stays. */
    method MergeProposal(b: string) returns (found: Option<nat>)
      requires Valid()
      modifies this`proposals
      ensures Valid()
      ensures found.Some? ==>
        && found.value in old(proposals) && old(proposals)[found.value] == Proposal(b, ProposalOpen)
        && proposals == old(proposals)[found.value := Proposal(b, ProposalMerged)]
        && !HasOpenProposal(proposals, b)
      ensures found.None? ==>
        proposals == old(proposals) && !HasOpenProposal(proposals, b)
    {
      hide Sound;
      if HasOpenProposal(proposals, b) {
        var p :| p in proposals && proposals[p] == Proposal(b, ProposalOpen);
        proposals := proposals[p := Proposal(b, ProposalMerged)];
        return Some(p);
      }
      found := None;
    }

    method CreateReviewComment(b: string, version: nat, review: Option<nat>) returns (res: Result<nat, StoreError>)
      requires Valid()
      modifies this`comments, this`nextID
      ensures Valid()
      ensures b !in branches ==> res == Err(BranchNotFound)
      ensures b in branches ==>
        (res.Err? <==> version !in docs || (review.Some? && !HasReview(reviews, review.value)))
      ensures b in branches && res.Err? ==> res == Err(ForeignKeyViolation)
      ensures res.Err? ==> comments == old(comments)
      ensures res.Ok? ==>
        res.value !in old(comments) && comments == old(comments)[res.value := Comment(b, review, version)]
    {
      hide Sound, HasReview;
      if b !in branches {
        return Err(BranchNotFound);
      }
      if version !in docs || (review.Some? && !HasReview(reviews, review.value)) {
        return Err(ForeignKeyViolation);
      }
      res := Ok(nextID);
      comments := comments[nextID := Comment(b, review, version)];
      nextID := nextID + 1;
    }

    method DeleteReviewComment(c: nat) returns (err: Option<StoreError>)
      requires Valid()
      modifies this`comments
      ensures Valid() && comments == old(comments) - {c}
      ensures err == if c in old(comments) then None else Some(CommentNotFound)
    {
      hide Sound, HasReview;
      if c !in comments {
        return Some(CommentNotFound);
      }
      comments := comments - {c};
      err := None;
    }

    // -------------------------------------------------------------------------
    // Purge
    // -------------------------------------------------------------------------

    /**
     * The deletes of a purge, in their order, with the rows each one affected. A delete that would
     * leave a proposal or comment without its branch, review or document fails.
     */
    method DeleteBranches(dead: set<string>) returns (res: Result<PurgeResult, StoreError>)
      requires |branches| - |branches - dead| == |dead|
      modifies this`branches, this`commits, this`files, this`docs, this`reviews
      ensures res == Err(ForeignKeyViolation) || res.Ok?
      ensures res.Ok? <==> RefsOk(Without(old(State()), dead), Talk())
      ensures res.Ok? ==>
        State() == Without(old(State()), dead) && res.value == PurgeCounts(old(State()), State())
    {
      hide KeptFiles, KeptCommits, KeptDocs, KeptReviews, RowCount, BranchesHeld, DocsHeld, ReviewsHeld;
      var fileCommits := RowCount(files, next);
      files := KeptFiles(files, dead);
      fileCommits := fileCommits - RowCount(files, next);
      var commitCount := |commits|;
      commits := KeptCommits(commits, dead, files);
      commitCount := commitCount - |commits|;
      var reviewCount := |reviews|;
      reviews := KeptReviews(reviews, dead);
      reviewCount := reviewCount - |reviews|;
      if !ReviewsHeld(reviews, comments) {
        return Err(ForeignKeyViolation);
      }
      var docCount := |docs|;
      docs := KeptDocs(docs, files);
      docCount := docCount - |docs|;
      if !DocsHeld(docs, comments) {
        return Err(ForeignKeyViolation);
      }
      branches := branches - dead;
      if !BranchesHeld(branches, Discussion(proposals, comments)) {
        return Err(ForeignKeyViolation);
      }
      res := Ok(PurgeResult(|dead|, fileCommits, commitCount, docCount, reviewCount));
    }

    /**
     * Deletes merged and abandoned branches whose last activity is before the threshold, unless a
     * proposal or comment stands in the way: then the call fails, dry run or not.
     */
    method Purge(threshold: Timestamp, dryRun: bool) returns (res: Result<PurgeResult, StoreError>)
      requires Valid()
      modifies this
      ensures Valid() && Talk() == old(Talk())
      ensures var r := old(State());
        var dead := PurgeSet(r.branches, r.commits, threshold);
        if Blocked(r, Talk(), dead) then res == Err(ForeignKeyViolation) && State() == r
        else res == Ok(PurgeCounts(r, Without(r, dead))) && State() == if dryRun then r else Without(r, dead)
      ensures res.Ok? && !dryRun ==> forall b :: b in branches <==>
        b in old(branches)
        && !(b != "main" && (old(branches)[b].status == Status.Merged || old(branches)[b].status == Abandoned)
             && (if old(branches)[b].head in old(commits) then old(commits)[old(branches)[b].head].createdAt
                 else old(branches)[b].createdAt).Before(threshold))
    {
      hide Sound, NoOrphans, Without, PurgeSet, Below, RowCount, DiscussionOk, RefsOk, Blocked;
      ghost var r, d := State(), Talk();
      var tx := Begin();
      var dead := PurgeSet(branches, commits, threshold);
      PurgeFacts(Here(), r, d, nextID, threshold);
      if dead == {} {
        Rollback(tx);
        return Ok(PurgeResult(0, 0, 0, 0, 0));
      }
      res := DeleteBranches(dead);
      if res.Err? {
        Rollback(tx);
        return;
      }
      if dryRun {
        Rollback(tx);
      }
    }
  }
}
