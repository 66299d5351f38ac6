/**
 * What the transactions of the store are to do with its tables, outcome by outcome, and the steps
 * that tie the statements of the code to these specifications.
 */
module StoreSpecs {
  import opened Wrappers
  import opened Timestamps
  import opened CommitHashing
  import opened Tables
  import opened Transactions
  import opened Resolving
  import opened Views
  import opened Purging

  datatype StoreError =
    | BranchNotFound | BranchNotActive | BranchDraft | BranchExists | SelfApproval
    | ProposalExists | ProposalNotFound | CommentNotFound | ForeignKeyViolation

  datatype CommitResponse = CommitResponse(sequence: nat, versions: seq<FileRow>, commitHash: string)

  datatype MergeConflict = MergeConflict(path: string, mainVersion: Option<nat>, branchVersion: Option<nat>)

  datatype MergeResult =
    | MergedAt(sequence: nat)
    | MergeConflicts(conflicts: seq<MergeConflict>)
    | MergeFailed(error: StoreError)

  datatype RebaseResult =
    | RebasedTo(newBase: nat, newHead: nat, replayed: nat)
    | RebaseConflicts(conflicts: seq<MergeConflict>)
    | RebaseFailed(error: StoreError)

  ghost function Digester(sha: Sha): Record -> string { r => Digest(sha, r) }

  // ---------------------------------------------------------------------------
  // Numbers are taken before they are used
  // ---------------------------------------------------------------------------

  /** The tables after k more values of the sequence were taken. */
  function Alloc(r: Repo, k: nat): Repo { r.(next := r.next + k) }

  lemma {:induction false} GroupSeqsBeyond(files: FileTable, b: string, lo: nat, top: nat, hi: nat)
    requires top <= hi
    requires forall n :: top < n <= hi ==> RowsAt(files, b, n) == map[]
    ensures GroupSeqs(files, b, lo, hi) == GroupSeqs(files, b, lo, top)
    decreases hi
  {
    if top < hi {
      GroupSeqsBeyond(files, b, lo, top, hi - 1);
    }
  }

  lemma AllocChanges(r: Repo, k: nat, b: string, lo: nat)
    requires LogOk(r)
    ensures Net(r.files, b, lo, r.next + k) == Net(r.files, b, lo, r.next)
    ensures GroupSeqs(r.files, b, lo, r.next + k) == GroupSeqs(r.files, b, lo, r.next)
  {
    assert forall n :: r.next < n ==> RowsAt(r.files, b, n) == map[];
    NetBeyond(r.files, b, lo, r.next, r.next + k);
    GroupSeqsBeyond(r.files, b, lo, r.next, r.next + k);
  }

  lemma AllocCovered(r: Repo, k: nat)
    requires HeadsOk(r) && MainOk(r) && Covered(r) && ReviewsOk(r)
    requires forall b :: b in r.branches ==> ChangesOf(Alloc(r, k), b) == ChangesOf(r, b)
    ensures HeadsOk(Alloc(r, k)) && MainOk(Alloc(r, k)) && Covered(Alloc(r, k)) && ReviewsOk(Alloc(r, k))
  {
  }

  lemma AllocKeeps(e: Env, r: Repo, k: nat)
    requires Inv(e, r)
    ensures Inv(e, Alloc(r, k))
    ensures forall b :: b in r.branches ==>
      && ChangesOf(Alloc(r, k), b) == ChangesOf(r, b) && MainChanges(Alloc(r, k), b) == MainChanges(r, b)
      && SourcesOf(Alloc(r, k), b) == SourcesOf(r, b)
  {
    hide Net, RowsAt, GroupSeqs, Covered, ReviewsOk, LogOk, ChainOk, HeadsOk, MainOk;
    SameLogSameChain(e, r, Alloc(r, k));
    forall b | b in r.branches
      ensures ChangesOf(Alloc(r, k), b) == ChangesOf(r, b) && MainChanges(Alloc(r, k), b) == MainChanges(r, b)
      ensures SourcesOf(Alloc(r, k), b) == SourcesOf(r, b)
    {
      AllocChanges(r, k, b, r.branches[b].base);
      AllocChanges(r, k, MAIN, r.branches[b].base);
    }
    AllocCovered(r, k);
  }

  // ---------------------------------------------------------------------------
  // What the transactions are to do
  // ---------------------------------------------------------------------------

  /** The invariant of the store. */
  ghost predicate Sound(e: Env, r: Repo) { Inv(e, r) && NoOrphans(r) }

  ghost function RebaseNumbers(r: Repo, b: string): (ns: seq<nat>)
    requires b in r.branches
  {
    seq(|SourcesOf(r, b)|, i requires 0 <= i < |SourcesOf(r, b)| => r.next + i)
  }

  ghost function RebasedState(e: Env, r: Repo, b: string, author: string, at: Timestamp): Repo
    requires Inv(e, r) && b in r.branches
  {
    var k := |SourcesOf(r, b)|;
    AllocKeeps(e, r, k);
    RebaseOnto(e, Alloc(r, k), b, author, Repeat(at, k), RebaseNumbers(r, b))
  }

  ghost function MergedState(e: Env, r: Repo, b: string, author: string, at: Timestamp): Repo
    requires b in r.branches && MAIN in r.branches
  {
    if ChangesOf(r, b) == map[] then WithStatus(r, b, Status.Merged)
    else MergeInto(e, Alloc(r, 1), b, author, at, r.next)
  }

  /** A repository with nothing in it but the main branch at sequence 0. */
  function EmptyRepo(at: Timestamp): Repo {
    Repo(map[MAIN := Branch(0, 0, Active, false, at)], map[], map[], map[], [], 1)
  }

  /** No branch is lost, and the documents and reviews are the same. */
  ghost predicate SameRefs(r: Repo, s: Repo) {
    r.branches.Keys <= s.branches.Keys && s.docs == r.docs && s.reviews == r.reviews
  }

  /** The report names exactly the paths changed on both sides, each once, with both versions. */
  ghost predicate Reports(ours: Changes, theirs: Changes, cs: seq<MergeConflict>) {
    && (forall i :: 0 <= i < |cs| ==>
          && cs[i].path in ours && cs[i].branchVersion == ours[cs[i].path]
          && cs[i].path in theirs && cs[i].mainVersion == theirs[cs[i].path])
    && (forall p :: p in ours && p in theirs ==> exists i :: 0 <= i < |cs| && cs[i].path == p)
    && (forall i, j :: 0 <= i < j < |cs| ==> cs[i].path != cs[j].path)
  }

  lemma NothingToReport(theirs: Changes)
    ensures Reports(map[], theirs, [])
  {
  }

  lemma ReportsSnoc(ours: Changes, theirs: Changes, cs: seq<MergeConflict>, row: FileRow)
    requires Reports(ours, theirs, cs) && row.path !in ours
    ensures Reports(ours[row.path := row.version], theirs,
                    if row.path in theirs then cs + [MergeConflict(row.path, theirs[row.path], row.version)] else cs)
  {
    if row.path in theirs {
      var more := cs + [MergeConflict(row.path, theirs[row.path], row.version)];
      forall p | p in ours[row.path := row.version] && p in theirs
        ensures exists i :: 0 <= i < |more| && more[i].path == p
      {
        if p == row.path {
          assert more[|cs|].path == p;
        } else {
          var i :| 0 <= i < |cs| && cs[i].path == p;
          assert more[i].path == p;
        }
      }
    }
  }

  lemma ReportsNothing(ours: Changes, theirs: Changes, cs: seq<MergeConflict>)
    requires Reports(ours, theirs, cs)
    ensures cs == [] <==> ours.Keys * theirs.Keys == {}
  {
    if cs != [] {
      assert cs[0].path in ours.Keys * theirs.Keys;
    } else {
      assert forall p :: p in ours.Keys * theirs.Keys ==> p in ours && p in theirs;
    }
  }

  lemma AboveNext(e: Env, r: Repo, b: string)
    requires Inv(e, r) && b in r.branches
    ensures Above(Alloc(r, 1), b, r.next)
    ensures r.next !in r.commits && r.next !in r.files
  {
  }

  /** What the statements of a transaction leave is one more commit in the sense of AddCommit. */
  lemma StampedIsAdded(e: Env, r: Repo, b: string, author: string, message: string, at: Timestamp, n: nat,
      rows: Changes, commits: map<nat, Commit>)
    requires n !in r.commits
    requires var bare := r.commits[n := Tables.Commit(b, message, author, at, None)];
      commits == bare[n := Tables.Commit(b, message, author, at, Some(e.digest(
        Record(PrevHash(bare, b, n), n, e.repo, b, author, message, at, Contents(r.docs, rows)))))]
    ensures commits == AddCommit(e, r, b, author, message, at, n, rows).commits
  {
    PrevHashAgree(r.commits[n := Tables.Commit(b, message, author, at, None)], r.commits, b, n);
  }

  lemma MergeSound(e: Env, r: Repo, b: string, author: string, at: Timestamp)
    requires Sound(e, r) && b in r.branches && b != MAIN
    ensures Sound(e, MergedState(e, r, b, author, at))
    ensures SameRefs(r, MergedState(e, r, b, author, at))
  {
    hide LogOk, ChainOk, HeadsOk, Covered, ReviewsOk, Net;
    AllocKeeps(e, r, 1);
    AboveNext(e, r, MAIN);
    if ChangesOf(r, b) == map[] {
      WithStatusKeeps(e, r, b, Status.Merged);
    } else {
      MergeKeeps(e, Alloc(r, 1), b, author, at, r.next);
      AdvanceFields(e, Alloc(r, 1), MAIN, author, MergeMessage(b), at, r.next, ChangesOf(r, b));
    }
    MoreRowsNoOrphans(r, MergedState(e, r, b, author, at));
  }

  lemma NumbersAbove(e: Env, r: Repo, b: string)
    requires Inv(e, r) && b in r.branches
    ensures AllAbove(Alloc(r, |SourcesOf(r, b)|), b, RebaseNumbers(r, b))
  {
  }

  lemma {:induction false} ReplayedRows(e: Env, r: Repo, b: string, author: string, src: seq<nat>,
      ats: seq<Timestamp>, ns: seq<nat>, k: nat)
    requires b in r.branches && k <= |src| == |ns| == |ats|
    requires forall i, j :: 0 <= i < j < |ns| ==> ns[i] != ns[j]
    requires forall i :: 0 <= i < |ns| ==> ns[i] !in r.files
    ensures var s := Replayed(e, r, b, author, src, ats, ns, k);
      && s.docs == r.docs && s.next == r.next && s.reviews == r.reviews
      && (forall n :: n in r.files ==> n in s.files && s.files[n] == r.files[n])
  {
    hide RowsAt, PrevHash, ReplayMessage, ReplayAuthor;
    if k > 0 {
      ReplayedRows(e, r, b, author, src, ats, ns, k - 1);
    }
  }

  lemma {:induction false} ReplayedFields(e: Env, r: Repo, b: string, author: string, src: seq<nat>,
      ats: seq<Timestamp>, ns: seq<nat>, k: nat)
    requires b in r.branches && k <= |src| == |ns| == |ats|
    ensures var s := Replayed(e, r, b, author, src, ats, ns, k);
      && s.docs == r.docs && s.next == r.next && s.reviews == r.reviews
      && s.branches == r.branches[b := r.branches[b].(head := if k == 0 then r.branches[b].head else ns[k - 1])]
  {
    hide RowsAt, PrevHash, ReplayMessage, ReplayAuthor;
    if k > 0 {
      ReplayedFields(e, r, b, author, src, ats, ns, k - 1);
    }
  }

  lemma RebaseSound(e: Env, r: Repo, b: string, author: string, at: Timestamp)
    requires Sound(e, r) && b in r.branches && b != MAIN
    ensures Sound(e, RebasedState(e, r, b, author, at))
    ensures SameRefs(r, RebasedState(e, r, b, author, at))
  {
    hide ChainOk, HeadsOk, Covered, ReviewsOk, Net, RowsAt, GroupSeqs, Replayed;
    var k := |SourcesOf(r, b)|;
    var s, ns, ats := Alloc(r, k), RebaseNumbers(r, b), Repeat(at, k);
    AllocKeeps(e, r, k);
    NumbersAbove(e, r, b);
    RebaseKeeps(e, s, b, author, ats, ns);
    ReplayedRows(e, s, b, author, SourcesOf(s, b), ats, ns, k);
    ReplayedFields(e, s, b, author, SourcesOf(s, b), ats, ns, k);
    MoreRowsNoOrphans(r, RebasedState(e, r, b, author, at));
  }

  /** The tables after the statements of a commit. */
  ghost predicate CommitWrites(e: Env, r: Repo, sha: Sha, b: string, author: string, message: string, at: Timestamp,
      changes: seq<FileChange>, q: Resolution, hex: string, s: Repo)
  {
    var bare := r.commits[r.next := Commit(b, message, author, at, None)];
    && b in r.branches
    && s == Repo(
      r.branches[b := r.branches[b].(head := r.next)], bare[r.next := Commit(b, message, author, at, Some(hex))],
      r.files[r.next := Rows(b, q.rows)], r.docs + q.added, r.reviews, r.next + 1)
    && hex == e.digest(
      Record(PrevHash(bare, b, r.next), r.next, e.repo, b, author, message, at, HashesOf(sha, changes)))
  }

  /** Whether the reviewer wrote a commit of b above its base. */
  predicate CountsAsAuthor(commits: map<nat, Commit>, b: string, base: nat, reviewer: string, n: nat)
    requires n in commits
  {
    commits[n].branch == b && n > base && commits[n].author == reviewer
  }

  ghost predicate AuthoredAbove(r: Repo, b: string, reviewer: string)
    requires b in r.branches
  {
    exists n :: n in r.commits && CountsAsAuthor(r.commits, b, r.branches[b].base, reviewer, n)
  }

  /** The verdict of a merge and the tables it leaves. */
  ghost predicate MergeOutcome(e: Env, r: Repo, b: string, author: string, at: Timestamp, dryRun: bool,
      res: MergeResult, s: Repo)
  {
    && MAIN in r.branches
    && if b !in r.branches then res == MergeFailed(BranchNotFound) && s == r
       else if r.branches[b].status != Active then res == MergeFailed(BranchNotActive) && s == r
       else if r.branches[b].draft then res == MergeFailed(BranchDraft) && s == r
       else if ChangesOf(r, b) == map[] then
         res == MergedAt(r.branches[MAIN].head) && s == if dryRun then r else MergedState(e, r, b, author, at)
       else if ConflictPaths(r, b) != {} then
         res.MergeConflicts? && Reports(ChangesOf(r, b), MainChanges(r, b), res.conflicts) && s == r
       else
         res == MergedAt(r.next) && s == if dryRun then Alloc(r, 1) else MergedState(e, r, b, author, at)
  }

  ghost predicate RebaseOutcome(e: Env, r: Repo, b: string, author: string, at: Timestamp, res: RebaseResult, s: Repo)
    requires Sound(e, r)
  {
    if b == MAIN then res == RebaseFailed(BranchNotActive) && s == r
    else if b !in r.branches then res == RebaseFailed(BranchNotFound) && s == r
    else if r.branches[b].status != Active then res == RebaseFailed(BranchNotActive) && s == r
    else if ConflictPaths(r, b) != {} then
      res.RebaseConflicts? && Reports(ChangesOf(r, b), MainChanges(r, b), res.conflicts) && s == r
    else
      var k := |SourcesOf(r, b)|;
      && res == RebasedTo(r.branches[MAIN].head, if k == 0 then r.branches[MAIN].head else r.next + k - 1, k)
      && s == RebasedState(e, r, b, author, at)
  }

  /** The tables after i groups were replayed. */
  ghost function ReplayedTo(e: Env, r: Repo, b: string, author: string, at: Timestamp, i: nat): Repo
    requires b in r.branches && LogOk(r) && i <= |SourcesOf(r, b)|
  {
    var k := |SourcesOf(r, b)|;
    Replayed(e, Alloc(r, k), b, author, SourcesOf(r, b), Repeat(at, k), RebaseNumbers(r, b), i)
  }

  // ---------------------------------------------------------------------------
  // From statements to specifications
  // ---------------------------------------------------------------------------

  lemma ListsNonempty(l: seq<FileRow>, changes: Changes)
    requires Lists(l, changes) && changes != map[]
    ensures l != []
  {
  }

  lemma BranchOffSound(e: Env, r: Repo, name: string, draft: bool, at: Timestamp)
    requires Sound(e, r) && name !in r.branches && MAIN in r.branches
    ensures Sound(e, BranchOff(r, name, draft, at))
  {
    BranchOffKeeps(e, r, name, draft, at);
    MoreRowsNoOrphans(r, BranchOff(r, name, draft, at));
  }

  lemma WithStatusSound(e: Env, r: Repo, b: string, status: Status)
    requires Sound(e, r) && b in r.branches && b != MAIN
    ensures Sound(e, WithStatus(r, b, status))
  {
    WithStatusKeeps(e, r, b, status);
    MoreRowsNoOrphans(r, WithStatus(r, b, status));
  }

  lemma AddReviewSound(e: Env, r: Repo, b: string, id: nat, reviewer: string, verdict: Verdict)
    requires Sound(e, r) && b in r.branches
    ensures Sound(e, AddReview(r, b, id, reviewer, verdict))
  {
    AddReviewKeeps(e, r, b, id, reviewer, verdict);
    MoreRowsNoOrphans(r, AddReview(r, b, id, reviewer, verdict));
  }

  lemma SeenIsCurrent(e: Env, r: Repo, b: string)
    requires Sound(e, r) && b in r.branches
    ensures forall v :: v in r.reviews && v.branch == b && v.sequence == r.branches[b].head ==>
        v.seen == ChangesOf(r, b)
  {
  }

  lemma AllocSound(e: Env, r: Repo, k: nat)
    requires Sound(e, r)
    ensures Sound(e, Alloc(r, k))
  {
    AllocKeeps(e, r, k);
    MoreRowsNoOrphans(r, Alloc(r, k));
  }

  lemma MergedStateIs(e: Env, r: Repo, b: string, author: string, at: Timestamp)
    requires Sound(e, r) && b in r.branches && MAIN in r.branches && ChangesOf(r, b) != map[]
    ensures MergedState(e, r, b, author, at)
         == WithStatus(
              Advance(e, Alloc(r, 1), MAIN, author, MergeMessage(b), at, r.next, ChangesOf(r, b)), b, Status.Merged)
    ensures Sound(e, Alloc(r, 1))
  {
    hide Inv;
    AllocSound(e, r, 1);
    assert Inv(e, r);
    AllocKeeps(e, r, 1);
  }

  lemma MergeWritesIs(e: Env, r: Repo, b: string, author: string, at: Timestamp, ours: Changes, hex: string, s: Repo)
    requires b in r.branches && MAIN in r.branches && b != MAIN && r.next !in r.commits
    requires var bare := r.commits[r.next := Commit(MAIN, MergeMessage(b), author, at, None)];
      && hex == e.digest(
        Record(PrevHash(bare, MAIN, r.next), r.next, e.repo, MAIN, author, MergeMessage(b), at, Contents(r.docs, ours)))
      && s == Repo(
        r.branches[MAIN := r.branches[MAIN].(head := r.next)][b := r.branches[b].(status := Status.Merged)],
        bare[r.next := Commit(MAIN, MergeMessage(b), author, at, Some(hex))],
        r.files[r.next := Rows(MAIN, ours)], r.docs, r.reviews, r.next + 1)
    ensures s == WithStatus(Advance(e, Alloc(r, 1), MAIN, author, MergeMessage(b), at, r.next, ours), b, Status.Merged)
  {
    hide PrevHash, MergeMessage, Contents;
    StampedIsAdded(e, Alloc(r, 1), MAIN, author, MergeMessage(b), at, r.next, ours, s.commits);
  }

  lemma SoundOrphans(e: Env, r: Repo)
    requires Sound(e, r)
    ensures NoOrphans(r)
  {
  }

  lemma SoundLog(e: Env, r: Repo)
    requires Sound(e, r)
    ensures Inv(e, r) && LogOk(r) && HeadsOk(r) && MainOk(r)
  {
  }

  lemma ReplayedBegins(e: Env, r: Repo, b: string, author: string, at: Timestamp)
    requires LogOk(r) && b in r.branches
    ensures var s := ReplayedTo(e, r, b, author, at, 0); s.commits == r.commits && s.files == r.files
  {
  }

  lemma {:induction false} ReplayedKeys(e: Env, r: Repo, b: string, author: string, at: Timestamp, i: nat)
    requires LogOk(r) && b in r.branches && i <= |SourcesOf(r, b)|
    ensures var s := ReplayedTo(e, r, b, author, at, i);
      s.docs == r.docs && (forall n :: n in s.commits || n in s.files ==> n < r.next + i)
  {
    hide RowsAt, PrevHash, ReplayMessage, ReplayAuthor, GroupSeqs;
    if i > 0 {
      ReplayedKeys(e, r, b, author, at, i - 1);
    }
  }

  /** One more group replayed is one more commit. */
  lemma ReplayedNext(e: Env, r: Repo, b: string, author: string, at: Timestamp, i: nat, cur: Repo)
    requires LogOk(r) && b in r.branches && i < |SourcesOf(r, b)|
    requires cur.docs == r.docs
    requires var s := ReplayedTo(e, r, b, author, at, i); cur.commits == s.commits && cur.files == s.files
    ensures r.next + i !in cur.commits && r.next + i !in cur.files
    ensures var s, src := ReplayedTo(e, r, b, author, at, i + 1), SourcesOf(r, b)[i];
      var t := AddCommit(e, cur, b, ReplayAuthor(author), ReplayMessage(src), at, r.next + i, RowsAt(r.files, b, src));
      s.commits == t.commits && s.files == t.files
  {
    hide RowsAt, PrevHash, ReplayMessage, ReplayAuthor, GroupSeqs;
    ReplayedKeys(e, r, b, author, at, i);
  }

  lemma ReplayedEnds(e: Env, r: Repo, b: string, author: string, at: Timestamp, s: Repo)
    requires Inv(e, r) && LogOk(r) && b in r.branches && MAIN in r.branches && SourcesOf(r, b) != []
    requires var k := |SourcesOf(r, b)|;
      var t := ReplayedTo(e, r, b, author, at, k);
      s == Repo(r.branches[b := r.branches[b].(base := r.branches[MAIN].head, head := r.next + k - 1)],
                t.commits, t.files, r.docs, r.reviews, r.next + k)
    ensures s == RebasedState(e, r, b, author, at)
  {
    hide Inv, LogOk, RowsAt, GroupSeqs, Replayed, Repeat, ChangesOf, MainChanges;
    var k := |SourcesOf(r, b)|;
    AllocKeeps(e, r, k);
    ReplayedFields(e, Alloc(r, k), b, author, SourcesOf(r, b), Repeat(at, k), RebaseNumbers(r, b), k);
  }

  lemma GroupIsSource(files: FileTable, b: string, lo: nat, hi: nat, groups: seq<Group>, i: nat)
    requires IsGroups(files, b, lo, hi, groups) && i < |groups|
    ensures var src := GroupSeqs(files, b, lo, hi);
      && |src| == |groups| && groups[i].seqno == src[i] && groups[i].files != []
      && DistinctRows(groups[i].files) && ToChanges(groups[i].files) == RowsAt(files, b, src[i])
  {
    GroupsAscend(files, b, lo, hi, groups);
  }

  lemma EmptyRebase(e: Env, r: Repo, b: string, author: string, at: Timestamp)
    requires Inv(e, r) && b in r.branches && MAIN in r.branches && SourcesOf(r, b) == []
    ensures RebasedState(e, r, b, author, at) == Rebased(r, b, r.branches[MAIN].head, r.branches[MAIN].head)
  {
    hide Inv;
  }

  lemma PurgeSetMembers(r: Repo, threshold: Timestamp)
    ensures var dead := PurgeSet(r.branches, r.commits, threshold); MAIN !in dead && dead <= r.branches.Keys
  {
    hide LastActivity;
  }

  lemma PurgeSound(e: Env, r: Repo, dead: set<string>, v: nat)
    requires Sound(e, r) && MAIN !in dead && dead <= r.branches.Keys && Below(r.docs, v)
    ensures Sound(e, Without(r, dead)) && Below(Without(r, dead).docs, v)
    ensures dead == {} ==> Without(r, dead) == r
    ensures |r.branches| - |r.branches - dead| == |dead|
  {
    PurgeKeeps(e, r, dead);
    PurgeNothing(r);
    assert (r.branches - dead).Keys == r.branches.Keys - dead;
  }

  lemma SoundNext(e: Env, r: Repo, b: string)
    requires Sound(e, r)
    ensures r.next !in r.commits && r.next !in r.files && MAIN in r.branches
  {
  }

  /** The tables a commit leaves are those of the specification, and sound. */
  lemma CommitIsSpec(e: Env, r: Repo, sha: Sha, b: string, author: string, message: string, at: Timestamp,
      changes: seq<FileChange>, q: Resolution, hex: string, s: Repo)
    requires Sound(e, r) && b in r.branches && changes != []
    requires AddedOk(r.docs, q) && RowsOk(r.docs + q.added, q.rows, HashesOf(sha, changes)) && q.rows != map[]
    requires CommitWrites(e, r, sha, b, author, message, at, changes, q, hex, s)
    ensures s == CommitTo(e, Alloc(r, 1), b, author, message, at, r.next, q.rows, q.added)
    ensures Sound(e, s) && Contents(s.docs, q.rows) == HashesOf(sha, changes)
    ensures Below(s.docs, q.nextVersion) && r.next in s.commits && s.commits[r.next].hash == Some(hex)
    ensures s.branches.Keys == r.branches.Keys && r.docs.Keys <= s.docs.Keys && s.reviews == r.reviews
  {
    hide Inv, LogOk, PrevHash, Contents, ChangesOf;
    SoundNext(e, r, b);
    AllocKeeps(e, r, 1);
    var t := WithDocs(Alloc(r, 1), q.added);
    StampedIsAdded(e, t, b, author, message, at, r.next, q.rows, s.commits);
    AboveNext(e, r, b);
    CommitKeeps(e, Alloc(r, 1), b, author, message, at, r.next, q.rows, q.added);
    CommitNoOrphans(e, Alloc(r, 1), b, author, message, at, r.next, q.rows, q.added);
  }
}
