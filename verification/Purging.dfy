/** Purge: what it deletes, and what it leaves untouched. */
module Purging {
  import opened Wrappers
  import opened Timestamps
  import opened CommitHashing
  import opened Tables
  import opened Transactions
  import opened Views

  /** COALESCE(c.created_at, b.created_at) with c the commit at the branch's head, whatever its branch. */
  function LastActivity(row: Branch, commits: map<nat, Commit>): Timestamp {
    if row.head in commits then commits[row.head].createdAt else row.createdAt
  }

  predicate Purgeable(b: string, row: Branch, commits: map<nat, Commit>, threshold: Timestamp) {
    && (row.status == Status.Merged || row.status == Abandoned)
    && b != MAIN && LastActivity(row, commits).Before(threshold)
  }

  function PurgeSet(branches: map<string, Branch>, commits: map<nat, Commit>, threshold: Timestamp): set<string> {
    set b | b in branches && Purgeable(b, branches[b], commits, threshold)
  }

  lemma IdleIsPurgeable(r: Repo, b: string, threshold: Timestamp)
    requires b in r.branches && b != MAIN && r.branches[b].status == Status.Merged
    requires r.branches[b].head !in r.commits && r.branches[b].createdAt.Before(threshold)
    ensures b in PurgeSet(r.branches, r.commits, threshold)
  {
  }

  function KeptFiles(files: FileTable, dead: set<string>): FileTable {
    map n | n in files && files[n].branch !in dead :: files[n]
  }

  /** The commits of a purged branch go unless some remaining file row names their sequence. */
  function KeptCommits(commits: map<nat, Commit>, dead: set<string>, files: FileTable): map<nat, Commit> {
    map n | n in commits && !(commits[n].branch in dead && n !in files) :: commits[n]
  }

  predicate Referenced(files: FileTable, v: nat) {
    exists n :: n in files && Some(v) in files[n].changes.Values
  }

  function KeptDocs(docs: map<nat, Doc>, files: FileTable): map<nat, Doc> {
    map v | v in docs && Referenced(files, v) :: docs[v]
  }

  function KeptReviews(reviews: seq<Review>, dead: set<string>): (kept: seq<Review>)
    ensures forall v :: v in kept <==> v in reviews && v.branch !in dead
  {
    if reviews == [] then []
    else
      var rest := KeptReviews(reviews[..|reviews| - 1], dead);
      var v := reviews[|reviews| - 1];
      if v.branch in dead then rest else rest + [v]
  }

  /** The tables after the deletes for the branches in dead. */
  function Without(r: Repo, dead: set<string>): Repo {
    var files := KeptFiles(r.files, dead);
    Repo(r.branches - dead, KeptCommits(r.commits, dead, files), files, KeptDocs(r.docs, files),
         KeptReviews(r.reviews, dead), r.next)
  }

  // ---------------------------------------------------------------------------
  // Survivors
  // ---------------------------------------------------------------------------

  lemma SurvivorRows(r: Repo, dead: set<string>, b: string)
    requires b !in dead
    ensures forall n :: RowsAt(Without(r, dead).files, b, n) == RowsAt(r.files, b, n)
    ensures forall lo, hi :: Net(Without(r, dead).files, b, lo, hi) == Net(r.files, b, lo, hi)
  {
    forall lo: nat, hi: nat ensures Net(Without(r, dead).files, b, lo, hi) == Net(r.files, b, lo, hi) {
      NetAgree(Without(r, dead).files, r.files, b, lo, hi);
    }
  }

  lemma SurvivorView(r: Repo, dead: set<string>, b: string)
    requires b in r.branches && b !in dead && MAIN !in dead
    ensures View(Without(r, dead), b) == View(r, b)
  {
    SurvivorRows(r, dead, b);
    SurvivorRows(r, dead, MAIN);
  }

  lemma SurvivorDocs(r: Repo, dead: set<string>, n: nat)
    requires LogOk(r) && n in Without(r, dead).files
    ensures Resolved(Without(r, dead).docs, r.files[n].changes)
    ensures Contents(Without(r, dead).docs, r.files[n].changes) == Contents(r.docs, r.files[n].changes)
  {
    var s := Without(r, dead);
    forall p | p in r.files[n].changes && r.files[n].changes[p].Some?
      ensures r.files[n].changes[p].value in s.docs
    {
      var v := r.files[n].changes[p].value;
      assert Some(v) in s.files[n].changes.Values;
      assert Referenced(s.files, v);
    }
  }

  lemma SurvivorChain(e: Env, r: Repo, dead: set<string>, n: nat)
    requires LogOk(r) && n in r.commits && r.commits[n].branch !in dead
    ensures n in Without(r, dead).commits && Without(r, dead).commits[n] == r.commits[n]
    ensures RecordAt(e, Without(r, dead), n) == RecordAt(e, r, n)
  {
    var s, b := Without(r, dead), r.commits[n].branch;
    PrevHashAgree(s.commits, r.commits, b, n);
    SurvivorDocs(r, dead, n);
  }

  lemma PurgeKeepsHeads(r: Repo, dead: set<string>)
    requires LogOk(r) && HeadsOk(r) && MainOk(r) && MAIN !in dead
    ensures HeadsOk(Without(r, dead)) && MainOk(Without(r, dead))
  {
  }

  lemma PurgeKeepsCover(r: Repo, dead: set<string>)
    requires Covered(r) && ReviewsOk(r)
    requires forall b :: b in Without(r, dead).branches ==> ChangesOf(Without(r, dead), b) == ChangesOf(r, b)
    ensures Covered(Without(r, dead)) && ReviewsOk(Without(r, dead))
  {
  }

  /** Purging branches other than main keeps the invariant of the store. */
  lemma PurgeKeeps(e: Env, r: Repo, dead: set<string>)
    requires Inv(e, r) && MAIN !in dead
    ensures Inv(e, Without(r, dead))
  {
    var s := Without(r, dead);
    assert LogOk(s) by {
      forall n | n in s.files ensures Resolved(s.docs, r.files[n].changes) {
        SurvivorDocs(r, dead, n);
      }
    }
    assert ChainOk(e, s) by {
      forall n | n in s.commits ensures RecordAt(e, s, n) == RecordAt(e, r, n) && s.commits[n] == r.commits[n] {
        SurvivorChain(e, r, dead, n);
      }
    }
    assert forall b :: b in s.branches ==> ChangesOf(s, b) == ChangesOf(r, b) by {
      forall b | b in s.branches ensures ChangesOf(s, b) == ChangesOf(r, b) {
        SurvivorRows(r, dead, b);
      }
    }
    PurgeKeepsHeads(r, dead);
    PurgeKeepsCover(r, dead);
  }

  /** Every document is named by some row. */
  ghost predicate NoOrphans(r: Repo) {
    forall v :: v in r.docs ==> Referenced(r.files, v)
  }

  /**
   * What is purged: merged and abandoned branches other than main whose head commit, or without
   * one the branch itself, is older than the threshold.
   */
  lemma PurgeSetIs(r: Repo, threshold: Timestamp)
    ensures forall b :: b in PurgeSet(r.branches, r.commits, threshold) <==>
        b in r.branches
        && b != "main" && (r.branches[b].status == Status.Merged || r.branches[b].status == Abandoned)
        && (if r.branches[b].head in r.commits then r.commits[r.branches[b].head].createdAt
            else r.branches[b].createdAt).Before(threshold)
  {
    hide Timestamp.Before;
  }

  /** Exactly these branches go, with all their commits, rows and reviews. */
  lemma PurgeRemoves(e: Env, r: Repo, threshold: Timestamp)
    requires Inv(e, r)
    ensures var s := Without(r, PurgeSet(r.branches, r.commits, threshold));
      && (forall b :: b in s.branches <==>
            b in r.branches
            && !(b != "main" && (r.branches[b].status == Status.Merged || r.branches[b].status == Abandoned)
                 && (if r.branches[b].head in r.commits then r.commits[r.branches[b].head].createdAt
                     else r.branches[b].createdAt).Before(threshold)))
      && (forall n :: n in s.commits <==> n in r.commits && r.commits[n].branch in s.branches)
      && (forall n :: n in s.files <==> n in r.files && r.files[n].branch in s.branches)
      && (forall v :: v in s.reviews <==> v in r.reviews && v.branch in s.branches)
  {
    hide ChainOk, Covered, KeptDocs, PurgeSet, Timestamp.Before;
    PurgeSetIs(r, threshold);
  }

  /** A surviving branch keeps its row, its commits with their hashes and records, and its view. */
  lemma PurgeKeepsSurvivors(e: Env, r: Repo, threshold: Timestamp)
    requires Inv(e, r)
    ensures var s := Without(r, PurgeSet(r.branches, r.commits, threshold));
      && (forall b :: b in s.branches ==> b in r.branches && s.branches[b] == r.branches[b] && View(s, b) == View(r, b))
      && (forall n :: n in s.commits ==>
          n in r.commits && s.commits[n] == r.commits[n] && RecordAt(e, s, n) == RecordAt(e, r, n))
      && (forall n :: n in s.files ==> n in r.files && s.files[n] == r.files[n])
  {
    hide ChainOk, Covered, LastActivity, RecordAt, View, ReviewsOk, KeptDocs;
    var dead := PurgeSet(r.branches, r.commits, threshold);
    var s := Without(r, dead);
    PurgeRemoves(e, r, threshold);
    forall b | b in s.branches ensures View(s, b) == View(r, b) {
      SurvivorView(r, dead, b);
    }
    forall n | n in s.commits ensures RecordAt(e, s, n) == RecordAt(e, r, n) && s.commits[n] == r.commits[n] {
      SurvivorChain(e, r, dead, n);
    }
  }

  /** Exactly the documents that surviving rows name remain, unchanged. */
  lemma PurgeKeepsDocs(e: Env, r: Repo, threshold: Timestamp)
    requires Inv(e, r)
    ensures var s := Without(r, PurgeSet(r.branches, r.commits, threshold));
      && NoOrphans(s)
      && (forall v :: v in s.docs ==> v in r.docs && s.docs[v] == r.docs[v])
      && (forall n :: n in s.files ==> Resolved(s.docs, s.files[n].changes))
  {
    hide ChainOk, Covered, LastActivity, HeadsOk, ReviewsOk;
    var dead := PurgeSet(r.branches, r.commits, threshold);
    forall n | n in Without(r, dead).files ensures Resolved(Without(r, dead).docs, r.files[n].changes) {
      SurvivorDocs(r, dead, n);
    }
  }

  // ---------------------------------------------------------------------------
  // Documents outside a purge
  // ---------------------------------------------------------------------------

  lemma MoreRowsNoOrphans(r: Repo, s: Repo)
    requires NoOrphans(r) && s.docs == r.docs
    requires forall n :: n in r.files ==> n in s.files && s.files[n] == r.files[n]
    ensures NoOrphans(s)
  {
    forall v | v in s.docs ensures Referenced(s.files, v) {
      var n :| n in r.files && Some(v) in r.files[n].changes.Values;
      assert n in s.files;
    }
  }

  /** A commit only adds documents that its own rows name. */
  lemma CommitNoOrphans(e: Env, r: Repo, b: string, author: string, message: string, at: Timestamp, n: nat,
      rows: Changes, added: map<nat, Doc>)
    requires NoOrphans(r) && b in r.branches && n !in r.files
    requires forall v :: v in added ==> Some(v) in rows.Values
    ensures NoOrphans(CommitTo(e, r, b, author, message, at, n, rows, added))
  {
    var s := CommitTo(e, r, b, author, message, at, n, rows, added);
    forall v | v in s.docs ensures Referenced(s.files, v) {
      if v in added {
        assert s.files[n].changes == rows;
      } else {
        var m :| m in r.files && Some(v) in r.files[m].changes.Values;
        assert s.files[m] == r.files[m];
      }
    }
  }

  // ---------------------------------------------------------------------------
  // Counts
  // ---------------------------------------------------------------------------

  /** The rows of file_commits below sequence k. */
  function RowCount(files: FileTable, k: nat): nat {
    if k == 0 then 0 else RowCount(files, k - 1) + (if k - 1 in files then |files[k - 1].changes| else 0)
  }

  function RowKeys(n: nat, changes: Changes): set<(nat, string)> { set p | p in changes :: (n, p) }

  /** The rows of file_commits on the branches in dead, by sequence and path. */
  function RowsOf(files: FileTable, dead: set<string>): set<(nat, string)> {
    set n, p | n in files && files[n].branch in dead && p in files[n].changes :: (n, p)
  }

  /** The branches in dead below sequence k. */
  function RowsBelow(files: FileTable, dead: set<string>, k: nat): set<(nat, string)> {
    if k == 0 then {}
    else
      RowsBelow(files, dead, k - 1)
      + (if k - 1 in files && files[k - 1].branch in dead then RowKeys(k - 1, files[k - 1].changes) else {})
  }

  lemma {:induction false} KeysCount(n: nat, changes: Changes)
    ensures |RowKeys(n, changes)| == |changes|
    decreases |changes|
  {
    if changes != map[] {
      var p :| p in changes;
      var rest := changes - {p};
      KeysCount(n, rest);
      assert RowKeys(n, changes) == RowKeys(n, rest) + {(n, p)};
      assert changes.Keys == rest.Keys + {p};
    }
  }

  lemma {:induction false} RowsBelowAre(files: FileTable, dead: set<string>, k: nat)
    ensures forall x :: x in RowsBelow(files, dead, k) <==> x in RowsOf(files, dead) && x.0 < k
  {
    if k > 0 {
      RowsBelowAre(files, dead, k - 1);
    }
  }

  lemma NewKeys(files: FileTable, dead: set<string>, k: nat)
    ensures k in files ==> RowsBelow(files, dead, k) !! RowKeys(k, files[k].changes)
  {
    RowsBelowAre(files, dead, k);
  }

  lemma {:induction false} GoneRowsBelow(files: FileTable, dead: set<string>, k: nat)
    ensures RowCount(files, k) - RowCount(KeptFiles(files, dead), k) == |RowsBelow(files, dead, k)|
  {
    hide RowKeys, RowsOf;
    if k > 0 {
      GoneRowsBelow(files, dead, k - 1);
      if k - 1 in files && files[k - 1].branch in dead {
        KeysCount(k - 1, files[k - 1].changes);
        NewKeys(files, dead, k - 1);
      }
    }
  }

  /** What the purge of dead deletes from file_commits. */
  lemma GoneRows(r: Repo, dead: set<string>)
    requires LogOk(r)
    ensures RowCount(r.files, r.next) - RowCount(KeptFiles(r.files, dead), r.next) == |RowsOf(r.files, dead)|
  {
    GoneRowsBelow(r.files, dead, r.next);
    RowsBelowAre(r.files, dead, r.next);
    assert RowsOf(r.files, dead) == RowsBelow(r.files, dead, r.next);
  }

  /** The reviews of the branches in dead, by position. */
  function ReviewsOf(reviews: seq<Review>, dead: set<string>): set<nat> {
    set i | 0 <= i < |reviews| && reviews[i].branch in dead
  }

  lemma LastReview(reviews: seq<Review>, dead: set<string>)
    requires reviews != []
    ensures var n := |reviews| - 1;
      var before := ReviewsOf(reviews[..n], dead);
      n !in before && ReviewsOf(reviews, dead) == if reviews[n].branch in dead then before + {n} else before
  {
    var n := |reviews| - 1;
    assert forall i :: 0 <= i < n ==> reviews[..n][i] == reviews[i];
  }

  lemma {:induction false} GoneReviews(reviews: seq<Review>, dead: set<string>)
    ensures |reviews| - |KeptReviews(reviews, dead)| == |ReviewsOf(reviews, dead)|
  {
    if reviews == [] {
      assert ReviewsOf(reviews, dead) == {};
    } else {
      hide ReviewsOf;
      var n := |reviews| - 1;
      GoneReviews(reviews[..n], dead);
      LastReview(reviews, dead);
    }
  }

  datatype PurgeResult = PurgeResult(branches: int, fileCommits: int, commits: int, documents: int, reviews: int)

  /** What a purge from r to s deleted. */
  function PurgeCounts(r: Repo, s: Repo): PurgeResult {
    PurgeResult(|r.branches| - |s.branches|, RowCount(r.files, r.next) - RowCount(s.files, s.next),
                |r.commits| - |s.commits|, |r.docs| - |s.docs|, |r.reviews| - |s.reviews|)
  }

  lemma {:induction false} AllReviewsKept(reviews: seq<Review>)
    ensures KeptReviews(reviews, {}) == reviews
  {
    if reviews != [] {
      AllReviewsKept(reviews[..|reviews| - 1]);
    }
  }

  /** Without eligible branches the deletes would change nothing. */
  lemma PurgeNothing(r: Repo)
    requires NoOrphans(r)
    ensures Without(r, {}) == r
  {
    AllReviewsKept(r.reviews);
    assert KeptFiles(r.files, {}) == r.files;
    assert KeptDocs(r.docs, r.files) == r.docs;
  }
}
