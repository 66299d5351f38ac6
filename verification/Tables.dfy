/**
 * The tables of one repository (internal/db/migrations/000001_initial_schema.up.sql) and the
 * queries over them. The rows of file_commits are grouped by sequence: all rows of a sequence
 * are inserted for one branch, and name a path once.
 */
module Tables {
  import opened Wrappers
  import opened Timestamps
  import opened CommitHashing

  const MAIN := "main"

  datatype Status = Active | Merged | Abandoned

  datatype Branch = Branch(head: nat, base: nat, status: Status, draft: bool, createdAt: Timestamp)

  /** A row of commits; the hash is NULL for commits older than the hash chain. */
  datatype Commit = Commit(branch: string, message: string, author: string, createdAt: Timestamp, hash: Option<string>)

  /** path to its new version, or None when deleted. */
  type Changes = map<string, Option<nat>>

  /** The rows of file_commits with one sequence. */
  datatype Rows = Rows(branch: string, changes: Changes)

  type FileTable = map<nat, Rows>

  datatype Doc = Doc(contentHash: string)

  datatype Verdict = Approved | Rejected | Dismissed

  /** `seen` is the change set of the branch when the review was written; it is not a column. */
  datatype Review = Review(id: nat, branch: string, reviewer: string, sequence: nat, verdict: Verdict, seen: Changes)

  /** The committed tables, and the next value of the commits sequence. */
  datatype Repo = Repo(
    branches: map<string, Branch>, commits: map<nat, Commit>, files: FileTable,
    docs: map<nat, Doc>, reviews: seq<Review>, next: nat)

  /** The repository's name and its chain hash function. */
  datatype Env = Env(repo: string, digest: Record -> string)

  // ---------------------------------------------------------------------------
  // Net changes
  // ---------------------------------------------------------------------------

  /** The rows of one sequence number on one branch. */
  function RowsAt(files: FileTable, b: string, n: nat): Changes {
    if n in files && files[n].branch == b then files[n].changes else map[]
  }

  /** What the rows of b with lo < sequence <= hi amount to, later rows winning. */
  function Net(files: FileTable, b: string, lo: nat, hi: nat): Changes
    decreases hi
  {
    if hi <= lo then map[] else Net(files, b, lo, hi - 1) + RowsAt(files, b, hi)
  }

  predicate RowOn(files: FileTable, b: string, n: nat, p: string) { p in RowsAt(files, b, n) }

  lemma {:induction false} NetHas(files: FileTable, b: string, lo: nat, hi: nat, n: nat, p: string)
    requires lo < n <= hi && RowOn(files, b, n, p)
    ensures p in Net(files, b, lo, hi)
    decreases hi
  {
    if n < hi {
      NetHas(files, b, lo, hi - 1, n, p);
    }
  }

  lemma {:induction false} NetRow(files: FileTable, b: string, lo: nat, hi: nat, p: string) returns (n: nat)
    requires p in Net(files, b, lo, hi)
    ensures lo < n <= hi && RowOn(files, b, n, p) && RowsAt(files, b, n)[p] == Net(files, b, lo, hi)[p]
    ensures forall m :: n < m <= hi ==> !RowOn(files, b, m, p)
    decreases hi
  {
    if RowOn(files, b, hi, p) {
      n := hi;
    } else {
      n := NetRow(files, b, lo, hi - 1, p);
    }
  }

  /**
   * Net is the result of "SELECT DISTINCT ON (path) ... ORDER BY path, sequence DESC" over the rows
   * of b with lo < sequence <= hi: it gives a path the version v exactly when the last such row
   * of the path has v.
   */
  lemma NetIsLastRow(files: FileTable, b: string, lo: nat, hi: nat, p: string, v: Option<nat>)
    ensures p in Net(files, b, lo, hi) && Net(files, b, lo, hi)[p] == v <==>
      exists n ::
        && lo < n <= hi && n in files && files[n].branch == b && p in files[n].changes && files[n].changes[p] == v
        && (forall m :: n < m <= hi && m in files && files[m].branch == b ==> p !in files[m].changes)
    ensures p in Net(files, b, lo, hi) <==>
      exists n :: lo < n <= hi && n in files && files[n].branch == b && p in files[n].changes
  {
    if n :| lo < n <= hi && n in files && files[n].branch == b && p in files[n].changes {
      NetHas(files, b, lo, hi, n, p);
    }
    if p in Net(files, b, lo, hi) {
      var n := NetRow(files, b, lo, hi, p);
      assert n in files && files[n].branch == b;
      forall m | n < m <= hi && m in files && files[m].branch == b ensures p !in files[m].changes {
        assert !RowOn(files, b, m, p);
      }
    }
  }

  lemma OverlayAssoc(x: Changes, y: Changes, z: Changes)
    ensures (x + y) + z == x + (y + z)
  {
  }

  lemma {:induction false} NetSplit(files: FileTable, b: string, lo: nat, mid: nat, hi: nat)
    requires lo <= mid <= hi
    ensures Net(files, b, lo, hi) == Net(files, b, lo, mid) + Net(files, b, mid, hi)
    decreases hi
  {
    if mid < hi {
      NetSplit(files, b, lo, mid, hi - 1);
      OverlayAssoc(Net(files, b, lo, mid), Net(files, b, mid, hi - 1), RowsAt(files, b, hi));
    }
  }

  /** The two logs hold the same rows of b with lo < sequence <= hi. */
  ghost predicate SameRows(f: FileTable, g: FileTable, b: string, lo: nat, hi: nat) {
    forall n :: lo < n <= hi ==> RowsAt(f, b, n) == RowsAt(g, b, n)
  }

  lemma {:induction false} NetAgree(f: FileTable, g: FileTable, b: string, lo: nat, hi: nat)
    requires SameRows(f, g, b, lo, hi)
    ensures Net(f, b, lo, hi) == Net(g, b, lo, hi)
    decreases hi
  {
    if lo < hi {
      NetAgree(f, g, b, lo, hi - 1);
    }
  }

  /** Rows of b stop at top, so any bound from top on gives the same net change. */
  lemma {:induction false} NetBeyond(files: FileTable, b: string, lo: nat, top: nat, hi: nat)
    requires top <= hi
    requires forall n :: top < n <= hi ==> RowsAt(files, b, n) == map[]
    ensures Net(files, b, lo, hi) == Net(files, b, lo, top)
    decreases hi
  {
    if top < hi {
      NetBeyond(files, b, lo, top, hi - 1);
    }
  }

  // ---------------------------------------------------------------------------
  // The hash chain
  // ---------------------------------------------------------------------------

  /** The greatest sequence below n on branch b. */
  function PrevSeq(commits: map<nat, Commit>, b: string, n: nat): Option<nat> {
    if n == 0 then None
    else if n - 1 in commits && commits[n - 1].branch == b then Some(n - 1)
    else PrevSeq(commits, b, n - 1)
  }

  lemma {:induction false} PrevSeqIsMax(commits: map<nat, Commit>, b: string, n: nat)
    ensures PrevSeq(commits, b, n).Some? ==>
      var m := PrevSeq(commits, b, n).value;
      m < n && m in commits && commits[m].branch == b
    ensures forall m :: m < n && m in commits && commits[m].branch == b ==>
      PrevSeq(commits, b, n).Some? && m <= PrevSeq(commits, b, n).value
  {
    if n > 0 {
      PrevSeqIsMax(commits, b, n - 1);
    }
  }

  /** Genesis without a previous commit on the branch, or when that commit has no hash. */
  function PrevHash(commits: map<nat, Commit>, b: string, n: nat): string {
    match PrevSeq(commits, b, n)
    case None => GENESIS_HASH
    case Some(m) =>
      PrevSeqIsMax(commits, b, n);
      if commits[m].hash.None? || commits[m].hash.value == "" then GENESIS_HASH else commits[m].hash.value
  }

  /**
   * A commit is chained to the last earlier commit of its branch, and to 64 zeros when there is
   * none or it has no hash.
   */
  lemma PrevHashMeans(commits: map<nat, Commit>, b: string, n: nat)
    ensures (forall m: nat :: m < n && m in commits ==> commits[m].branch != b) ==>
      PrevHash(commits, b, n) == "0000000000000000000000000000000000000000000000000000000000000000"
    ensures forall m: nat | m < n && m in commits && commits[m].branch == b ::
      (forall k: nat :: m < k < n && k in commits ==> commits[k].branch != b) ==>
        match commits[m].hash {
          case None => PrevHash(commits, b, n) == "0000000000000000000000000000000000000000000000000000000000000000"
          case Some(hash) => PrevHash(commits, b, n) == if hash == "" then GENESIS_HASH else hash
        }
  {
    PrevSeqIsMax(commits, b, n);
  }

  lemma {:induction false} PrevSeqAgree(c: map<nat, Commit>, d: map<nat, Commit>, b: string, n: nat)
    requires forall m :: m < n ==> (m in c && c[m].branch == b <==> m in d && d[m].branch == b)
    ensures PrevSeq(c, b, n) == PrevSeq(d, b, n)
  {
    if n > 0 {
      PrevSeqAgree(c, d, b, n - 1);
    }
  }

  lemma PrevHashAgree(c: map<nat, Commit>, d: map<nat, Commit>, b: string, n: nat)
    requires forall m :: m < n ==> (m in c && c[m].branch == b <==> m in d && d[m].branch == b)
    requires forall m :: m < n && m in c && c[m].branch == b ==> m in d && c[m] == d[m]
    ensures PrevHash(c, b, n) == PrevHash(d, b, n)
  {
    PrevSeqAgree(c, d, b, n);
    PrevSeqIsMax(c, b, n);
  }

  /** The content hash a file row stands for: empty for a deletion. */
  function ContentOf(docs: map<nat, Doc>, version: Option<nat>): string {
    if version.Some? && version.value in docs then docs[version.value].contentHash else ""
  }

  function Contents(docs: map<nat, Doc>, rows: Changes): map<string, string> {
    map p | p in rows :: ContentOf(docs, rows[p])
  }

  /** What the stored hash of commit n has to commit to. */
  function RecordAt(e: Env, r: Repo, n: nat): Record
    requires n in r.commits
  {
    var c := r.commits[n];
    Record(PrevHash(r.commits, c.branch, n), n, e.repo, c.branch, c.author, c.message, c.createdAt,
           Contents(r.docs, RowsAt(r.files, c.branch, n)))
  }

  // ---------------------------------------------------------------------------
  // The invariant
  // ---------------------------------------------------------------------------

  /** Rows belong to commits of the same branch, commits are not empty, versions have documents. */
  ghost predicate LogOk(r: Repo) {
    && (forall n :: n in r.commits ==> 0 < n < r.next && n in r.files)
    && (forall n :: n in r.files ==>
          && n in r.commits && r.files[n].branch == r.commits[n].branch
          && r.files[n].changes != map[]
          && (forall p :: p in r.files[n].changes && r.files[n].changes[p].Some? ==>
                r.files[n].changes[p].value in r.docs))
  }

  /** Every stored hash is the digest of its commit chained to the commit before it on its branch. */
  ghost predicate ChainOk(e: Env, r: Repo) {
    forall n :: n in r.commits && r.commits[n].hash.Some? ==>
      r.commits[n].hash.value == e.digest(RecordAt(e, r, n))
  }

  /** Heads bound the commits of their branch; a branch above its base has its head commit. */
  ghost predicate HeadsOk(r: Repo) {
    && (forall n :: n in r.commits ==> r.commits[n].branch in r.branches && n <= r.branches[r.commits[n].branch].head)
    && (forall b :: b in r.branches ==>
          var head := r.branches[b].head;
          && r.branches[b].base <= head < r.next
          && (head > r.branches[b].base ==> head in r.commits && r.commits[head].branch == b))
  }

  ghost predicate MainOk(r: Repo) {
    && MAIN in r.branches && r.branches[MAIN].base == 0 && r.branches[MAIN].status == Active
    && (forall b :: b in r.branches ==> r.branches[b].base <= r.branches[MAIN].head)
  }

  function ChangesOf(r: Repo, b: string): Changes
    requires b in r.branches
  {
    Net(r.files, b, r.branches[b].base, r.next)
  }

  /** Rows that a rebase left at or below the base are replayed above it. */
  ghost predicate Covered(r: Repo) {
    forall n :: n in r.files && r.files[n].branch in r.branches ==>
      r.files[n].changes.Keys <= ChangesOf(r, r.files[n].branch).Keys
  }

  /** A review at the current head was written against the current change set. */
  ghost predicate ReviewsOk(r: Repo) {
    forall v :: v in r.reviews ==>
      && v.branch in r.branches
      && v.sequence <= r.branches[v.branch].head
      && (v.sequence == r.branches[v.branch].head ==> v.seen == ChangesOf(r, v.branch))
  }

  ghost predicate Inv(e: Env, r: Repo) {
    LogOk(r) && ChainOk(e, r) && HeadsOk(r) && MainOk(r) && Covered(r) && ReviewsOk(r)
  }
}
