/**
 * The transactions of internal/db/store.go one statement at a time. Each holds its row locks to
 * its end, reads committed rows and its own writes, and takes numbers from one sequence that a
 * rollback does not give back. Any transaction may fail between two statements.
 */
module Interleaving {
  import opened Wrappers
  import opened Timestamps
  import opened CommitHashing
  import opened Tables
  import opened Transactions
  import opened Resolving
  import opened Views
  import opened Purging
  import StoreSpecs

  datatype Request =
    | CommitReq(b: string, author: string, message: string, at: Timestamp, changes: seq<FileChange>)
    | MergeReq(b: string, author: string, at: Timestamp, dryRun: bool)
    | RebaseReq(b: string, author: string, at: Timestamp)
    | BranchReq(b: string, draft: bool, at: Timestamp)
    | DeleteReq(b: string)
    | ReviewReq(b: string, id: nat, reviewer: string, verdict: Verdict)

  /** HasMain holds the first of two locks; Holding has every lock but has read nothing else. */
  datatype Phase = Idle | HasMain | Holding | Writing | Ended(committed: bool)

  /** A commit the transaction is to write on its target branch. */
  datatype Entry = Entry(author: string, message: string, at: Timestamp, rows: Changes)

  /** A transaction, with the rows it has inserted and not committed. */
  datatype Txn = Txn(
    req: Request, phase: Phase, mainHead: nat, plan: seq<Entry>, resolved: nat, ns: seq<nat>, done: nat,
    commits: map<nat, Commit>, files: FileTable, docs: map<nat, Doc>)

  /** The committed tables with the sequence counter, the next version, and the transactions. */
  datatype Sys = Sys(db: Repo, versions: nat, txns: seq<Txn>)

  predicate TwoLocks(q: Request) { q.MergeReq? || q.RebaseReq? }

  function AllLocks(q: Request): set<string> {
    if TwoLocks(q) then {MAIN, q.b} else if q.BranchReq? then {MAIN} else {q.b}
  }

  function Locks(t: Txn): set<string> {
    match t.phase
    case Idle => {}
    case HasMain => {MAIN}
    case Holding => AllLocks(t.req)
    case Writing => AllLocks(t.req)
    case Ended(_) => {}
  }

  /** The branch a transaction adds commits to. */
  function Target(q: Request): string { if q.MergeReq? then MAIN else q.b }

  /** Requests turned away before any lock is taken. */
  predicate RefusedAtOnce(q: Request) { (q.RebaseReq? || q.DeleteReq?) && q.b == MAIN }

  /** The checks after the locks. */
  ghost predicate Refused(r: Repo, q: Request)
    requires q.b in r.branches || q.BranchReq?
  {
    match q
    case CommitReq(b, _, _, _, _) => r.branches[b].status != Active
    case MergeReq(b, _, _, _) => r.branches[b].status != Active || r.branches[b].draft || ConflictPaths(r, b) != {}
    case RebaseReq(b, _, _) => r.branches[b].status != Active || ConflictPaths(r, b) != {}
    case BranchReq(b, _, _) => b in r.branches
    case DeleteReq(b) => r.branches[b].status != Active
    case ReviewReq(b, _, reviewer, verdict) => verdict == Approved && StoreSpecs.AuthoredAbove(r, b, reviewer)
  }

  /** The commits to write, as the reads after the locks determine them. */
  function PlanOf(r: Repo, q: Request): seq<Entry>
    requires q.b in r.branches || q.BranchReq?
  {
    match q
    case CommitReq(_, author, message, at, _) => [Entry(author, message, at, map[])]
    case MergeReq(b, author, at, _) =>
      if ChangesOf(r, b) == map[] then [] else [Entry(author, MergeMessage(b), at, ChangesOf(r, b))]
    case RebaseReq(b, author, at) =>
      var src := SourcesOf(r, b);
      seq(|src|, i requires 0 <= i < |src| =>
        Entry(ReplayAuthor(author), ReplayMessage(src[i]), at, RowsAt(r.files, b, src[i])))
    case BranchReq(_, _, _) => []
    case DeleteReq(_) => []
    case ReviewReq(_, _, _, _) => []
  }

  /** One commit written on top of commits, with its chained hash. */
  function Stamped(e: Env, commits: map<nat, Commit>, docs: map<nat, Doc>, b: string, x: Entry, n: nat): Commit {
    Commit(b, x.message, x.author, x.at, Some(e.digest(
      Record(PrevHash(commits, b, n), n, e.repo, b, x.author, x.message, x.at, Contents(docs, x.rows)))))
  }

  // ---------------------------------------------------------------------------
  // Steps
  // ---------------------------------------------------------------------------

  datatype Action =
    | Refuse | LockMain | LockBranch | NotFound | Read | Reject | Allocate | ResolveFile | Stamp | Finish | Abort

  predicate Free(s: Sys, i: nat, c: string) {
    forall j :: 0 <= j < |s.txns| && j != i ==> c !in Locks(s.txns[j])
  }

  /** The row a transaction locks last, and the phase it does so in. */
  function LastLock(q: Request): string { if q.BranchReq? then MAIN else q.b }

  function BeforeLast(q: Request): Phase { if TwoLocks(q) then HasMain else Idle }

  ghost predicate Enabled(s: Sys, i: nat, a: Action) {
    i < |s.txns| &&
    var t := s.txns[i];
    var q := t.req;
    match a
    case Refuse => t.phase.Idle? && RefusedAtOnce(q)
    case LockMain => t.phase.Idle? && TwoLocks(q) && !RefusedAtOnce(q) && MAIN in s.db.branches && Free(s, i, MAIN)
    case LockBranch =>
      t.phase == BeforeLast(q) && !RefusedAtOnce(q) && LastLock(q) in s.db.branches && MAIN in s.db.branches
      && Free(s, i, LastLock(q))
    case NotFound => t.phase == BeforeLast(q) && !RefusedAtOnce(q) && LastLock(q) !in s.db.branches
    case Read => t.phase.Holding? && (q.b in s.db.branches || q.BranchReq?) && !Refused(s.db, q)
    case Reject => t.phase.Holding? && (q.b in s.db.branches || q.BranchReq?) && Refused(s.db, q)
    case Allocate => t.phase.Writing? && |t.ns| == t.done < |t.plan|
    case ResolveFile =>
      t.phase.Writing? && |t.ns| == t.done + 1 && q.CommitReq? && t.resolved < |q.changes| && |t.plan| == 1
    case Stamp =>
      t.phase.Writing? && |t.ns| == t.done + 1 && t.done < |t.plan| && (q.CommitReq? ==> t.resolved == |q.changes|)
    case Finish => t.phase.Writing? && t.done == |t.plan| == |t.ns| && (q.b in s.db.branches || q.BranchReq?)
      && MAIN in s.db.branches
    case Abort => !t.phase.Ended?
  }

  /** The branch rows after the transaction's last updates. */
  function UpdatedBranches(r: Repo, t: Txn): map<string, Branch>
    requires t.req.b in r.branches || t.req.BranchReq?
    requires MAIN in r.branches && |t.ns| == |t.plan|
  {
    var m, q, k := r.branches, t.req, |t.ns|;
    match q
    case CommitReq(b, _, _, _, _) => if k == 0 then m else m[b := m[b].(head := t.ns[k - 1])]
    case MergeReq(b, _, _, _) =>
      var moved := if k == 0 then m else m[MAIN := m[MAIN].(head := t.ns[k - 1])];
      moved[b := moved[b].(status := Status.Merged)]
    case RebaseReq(b, _, _) => m[b := m[b].(base := t.mainHead, head := if k == 0 then t.mainHead else t.ns[k - 1])]
    case BranchReq(b, draft, at) => m[b := Branch(t.mainHead, t.mainHead, Active, draft, at)]
    case DeleteReq(b) => m[b := m[b].(status := Abandoned)]
    case ReviewReq(_, _, _, _) => m
  }

  /** What a commit makes visible. */
  function Apply(r: Repo, t: Txn): Repo
    requires t.req.b in r.branches || t.req.BranchReq?
    requires MAIN in r.branches && |t.ns| == |t.plan|
  {
    Repo(UpdatedBranches(r, t), r.commits + t.commits, r.files + t.files, r.docs + t.docs,
         if t.req.ReviewReq? then AddReview(r, t.req.b, t.req.id, t.req.reviewer, t.req.verdict).reviews
         else r.reviews,
         r.next)
  }

  predicate Commits(q: Request) { !(q.MergeReq? && q.dryRun) }

  function NextResolution(sha: Sha, s: Sys, t: Txn): Resolution
    requires t.req.CommitReq? && t.resolved < |t.req.changes| && |t.plan| == 1
  {
    ResolveOne(sha, s.db.docs, Resolution(t.docs, t.plan[0].rows, s.versions), t.req.changes[t.resolved])
  }

  /** The transaction after a step of its own. */
  ghost function NextTxn(e: Env, sha: Sha, s: Sys, i: nat, a: Action): Txn
    requires Enabled(s, i, a)
  {
    var t := s.txns[i];
    match a
    case Refuse => t.(phase := Ended(false))
    case LockMain => t.(phase := HasMain, mainHead := s.db.branches[MAIN].head)
    case LockBranch =>
      t.(phase := Holding, mainHead := if t.req.BranchReq? then s.db.branches[MAIN].head else t.mainHead)
    case NotFound => t.(phase := Ended(false))
    case Read => t.(phase := Writing, plan := PlanOf(s.db, t.req))
    case Reject => t.(phase := Ended(false))
    case Allocate => t.(ns := t.ns + [s.db.next])
    case ResolveFile =>
      var x := NextResolution(sha, s, t);
      t.(plan := [t.plan[0].(rows := x.rows)], docs := x.added, resolved := t.resolved + 1)
    case Stamp =>
      var n, x, b := t.ns[t.done], t.plan[t.done], Target(t.req);
      t.(commits := t.commits[n := Stamped(e, s.db.commits + t.commits, s.db.docs + t.docs, b, x, n)],
         files := t.files[n := Rows(b, x.rows)], done := t.done + 1)
    case Finish => t.(phase := Ended(Commits(t.req)))
    case Abort => t.(phase := Ended(false))
  }

  ghost function Next(e: Env, sha: Sha, s: Sys, i: nat, a: Action): Sys
    requires Enabled(s, i, a)
  {
    var t := s.txns[i];
    Sys(
      match a {
        case Allocate => StoreSpecs.Alloc(s.db, 1)
        case Finish => if Commits(t.req) then Apply(s.db, t) else s.db
        case _ => s.db
      },
      if a.ResolveFile? then NextResolution(sha, s, t).nextVersion else s.versions,
      s.txns[i := NextTxn(e, sha, s, i, a)])
  }

  // ---------------------------------------------------------------------------
  // The invariant
  // ---------------------------------------------------------------------------

  /** The first k commits of a plan, written on top of the committed tables. */
  function Made(e: Env, commits: map<nat, Commit>, docs: map<nat, Doc>, b: string, plan: seq<Entry>, ns: seq<nat>,
      k: nat): map<nat, Commit>
    requires k <= |plan| && k <= |ns|
  {
    if k == 0 then map[]
    else
      var before := Made(e, commits, docs, b, plan, ns, k - 1);
      before[ns[k - 1] := Stamped(e, commits + before, docs, b, plan[k - 1], ns[k - 1])]
  }

  function MadeFiles(b: string, plan: seq<Entry>, ns: seq<nat>, k: nat): FileTable
    requires k <= |plan| && k <= |ns|
  {
    if k == 0 then map[] else MadeFiles(b, plan, ns, k - 1)[ns[k - 1] := Rows(b, plan[k - 1].rows)]
  }

  predicate Acceptable(q: Request) {
    && (q.CommitReq? ==> q.changes != [] && DistinctChanges(q.changes))
    && (q.MergeReq? ==> q.b != MAIN)
  }

  ghost predicate PlanOk(sha: Sha, r: Repo, versions: nat, t: Txn)
    requires t.req.b in r.branches || t.req.BranchReq?
  {
    if t.req.CommitReq? then
      && |t.plan| == 1 && t.plan[0] == Entry(t.req.author, t.req.message, t.req.at, t.plan[0].rows)
      && t.resolved <= |t.req.changes| && (t.done > 0 ==> t.resolved == |t.req.changes|)
      && AddedOk(r.docs, Resolution(t.docs, t.plan[0].rows, versions))
      && RowsOk(r.docs + t.docs, t.plan[0].rows, HashesOf(sha, t.req.changes[..t.resolved]))
    else t.plan == PlanOf(r, t.req) && t.docs == map[]
  }

  ghost predicate NumbersOk(r: Repo, q: Request, ns: seq<nat>) {
    && (forall i, j :: 0 <= i < j < |ns| ==> ns[i] < ns[j])
    && (forall i :: 0 <= i < |ns| ==> ns[i] !in r.commits)
    && (forall i, c :: 0 <= i < |ns| && c in AllLocks(q) && c in r.branches ==> r.branches[c].head < ns[i])
  }

  ghost predicate WritingOk(e: Env, sha: Sha, r: Repo, versions: nat, t: Txn) {
    && (t.req.b in r.branches || t.req.BranchReq?)
    && !RefusedAtOnce(t.req) && !Refused(r, t.req) && PlanOk(sha, r, versions, t)
    && t.done <= |t.ns| <= t.done + 1 && |t.ns| <= |t.plan|
    && NumbersOk(r, t.req, t.ns)
    && t.commits == Made(e, r.commits, r.docs + t.docs, Target(t.req), t.plan, t.ns, t.done)
    && t.files == MadeFiles(Target(t.req), t.plan, t.ns, t.done)
  }

  predicate Blank(t: Txn) {
    t.plan == [] && t.resolved == 0 && t.ns == [] && t.done == 0 && t.commits == map[] && t.files == map[]
      && t.docs == map[]
  }

  ghost predicate TxnOk(e: Env, sha: Sha, r: Repo, versions: nat, t: Txn) {
    && Acceptable(t.req)
    && (forall n :: n in t.ns ==> n < r.next) && (forall v :: v in t.docs ==> v < versions)
    && Locks(t) <= r.branches.Keys
    && (t.phase.HasMain? ==> TwoLocks(t.req) && !RefusedAtOnce(t.req))
    && (t.phase.Holding? ==> !RefusedAtOnce(t.req))
    && (MAIN in Locks(t) && MAIN in r.branches && (TwoLocks(t.req) || t.req.BranchReq?) ==>
        t.mainHead == r.branches[MAIN].head)
    && (t.phase.Idle? || t.phase.HasMain? || t.phase.Holding? ==> Blank(t))
    && (t.phase.Writing? ==> WritingOk(e, sha, r, versions, t))
    && (t.phase == Ended(true) ==> forall n :: n in t.ns ==>
        Target(t.req) in r.branches && n <= r.branches[Target(t.req)].head)
  }

  /** Two transactions share no lock, no number and no version. */
  predicate Apart(t: Txn, u: Txn) {
    && Locks(t) !! Locks(u) && t.docs.Keys !! u.docs.Keys
    && (forall n :: n in t.ns ==> n !in u.ns)
  }

  ghost predicate SysOk(e: Env, sha: Sha, s: Sys) {
    && Inv(e, s.db) && NoOrphans(s.db) && Below(s.db.docs, s.versions)
    && (forall i :: 0 <= i < |s.txns| ==> TxnOk(e, sha, s.db, s.versions, s.txns[i]))
    && (forall i, j :: 0 <= i < |s.txns| && 0 <= j < |s.txns| && i != j ==> Apart(s.txns[i], s.txns[j]))
  }
}
