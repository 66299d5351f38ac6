/** What every step of any interleaving keeps. */
module InterleavingProofs {
  import opened Wrappers
  import opened Timestamps
  import opened CommitHashing
  import opened Tables
  import opened Transactions
  import opened Resolving
  import opened Views
  import opened Purging
  import opened Interleaving
  import StoreSpecs

  // ---------------------------------------------------------------------------
  // What a lock protects
  // ---------------------------------------------------------------------------

  /** The branch row, its commits and its file rows are the same. */
  ghost predicate AgreesOn(r: Repo, s: Repo, c: string) {
    && c in r.branches && c in s.branches && r.branches[c] == s.branches[c]
    && (forall n: nat :: RowsAt(r.files, c, n) == RowsAt(s.files, c, n))
    && (forall n: nat :: CommitOn(r, c, n) <==> CommitOn(s, c, n))
    && (forall n: nat :: CommitOn(r, c, n) && CommitOn(s, c, n) ==> r.commits[n] == s.commits[n])
  }

  lemma {:induction false} GroupSeqsAgree(f: FileTable, g: FileTable, b: string, lo: nat, hi: nat)
    requires forall n: nat :: RowsAt(f, b, n) == RowsAt(g, b, n)
    ensures GroupSeqs(f, b, lo, hi) == GroupSeqs(g, b, lo, hi)
    decreases hi
  {
    if lo < hi {
      GroupSeqsAgree(f, g, b, lo, hi - 1);
    }
  }

  lemma AgreeNet(r: Repo, s: Repo, c: string, lo: nat)
    requires LogOk(r) && r.next <= s.next && AgreesOn(r, s, c)
    ensures Net(s.files, c, lo, s.next) == Net(r.files, c, lo, r.next)
    ensures GroupSeqs(s.files, c, lo, s.next) == GroupSeqs(r.files, c, lo, r.next)
  {
    StoreSpecs.AllocChanges(r, s.next - r.next, c, lo);
    NetAgree(r.files, s.files, c, lo, s.next);
    GroupSeqsAgree(r.files, s.files, c, lo, s.next);
  }

  /** What another transaction did while u held its locks. */
  ghost predicate Undisturbed(r: Repo, s: Repo, added: map<nat, Doc>, u: Txn) {
    && LogOk(r) && r.next <= s.next && r.branches.Keys <= s.branches.Keys
    && (forall c :: c in Locks(u) ==> AgreesOn(r, s, c))
    && (MAIN in Locks(u) ==> s.branches.Keys == r.branches.Keys)
    && (forall n :: n in u.ns && n !in r.commits ==> n !in s.commits)
    && s.docs == r.docs + added && added.Keys !! r.docs.Keys && added.Keys !! u.docs.Keys
    && (forall c :: c in r.branches ==> r.branches[c].head <= s.branches[c].head)
  }

  lemma SamePlan(r: Repo, s: Repo, q: Request)
    requires q.RebaseReq? && AgreesOn(r, s, q.b) && SourcesOf(r, q.b) == SourcesOf(s, q.b)
    ensures PlanOf(s, q) == PlanOf(r, q)
  {
    hide GroupSeqs, ReplayMessage, ReplayAuthor;
  }

  lemma SameAuthors(r: Repo, s: Repo, b: string, reviewer: string)
    requires AgreesOn(r, s, b)
    ensures StoreSpecs.AuthoredAbove(s, b, reviewer) == StoreSpecs.AuthoredAbove(r, b, reviewer)
  {
    if StoreSpecs.AuthoredAbove(r, b, reviewer) {
      var n :| n in r.commits && StoreSpecs.CountsAsAuthor(r.commits, b, r.branches[b].base, reviewer, n);
      assert CommitOn(r, b, n) && CommitOn(s, b, n);
      assert StoreSpecs.CountsAsAuthor(s.commits, b, s.branches[b].base, reviewer, n);
    }
    if StoreSpecs.AuthoredAbove(s, b, reviewer) {
      var n :| n in s.commits && StoreSpecs.CountsAsAuthor(s.commits, b, s.branches[b].base, reviewer, n);
      assert CommitOn(s, b, n) && CommitOn(r, b, n);
      assert StoreSpecs.CountsAsAuthor(r.commits, b, r.branches[b].base, reviewer, n);
    }
  }

  lemma SameReads(r: Repo, s: Repo, added: map<nat, Doc>, u: Txn)
    requires Undisturbed(r, s, added, u) && Locks(u) == AllLocks(u.req)
    requires u.req.b in r.branches || u.req.BranchReq?
    ensures u.req.b in s.branches || u.req.BranchReq?
    ensures Refused(s, u.req) == Refused(r, u.req) && PlanOf(s, u.req) == PlanOf(r, u.req)
  {
    var q := u.req;
    match q
    case CommitReq(b, _, _, _, _) => assert AgreesOn(r, s, b);
    case MergeReq(b, _, _, _) =>
      AgreeNet(r, s, b, r.branches[b].base);
      AgreeNet(r, s, MAIN, r.branches[b].base);
    case RebaseReq(b, _, _) =>
      AgreeNet(r, s, b, r.branches[b].base);
      AgreeNet(r, s, MAIN, r.branches[b].base);
      SamePlan(r, s, q);
    case BranchReq(_, _, _) =>
    case DeleteReq(b) => assert AgreesOn(r, s, b);
    case ReviewReq(b, _, reviewer, _) => SameAuthors(r, s, b, reviewer);
  }

  lemma PlanResolved(sha: Sha, r: Repo, versions: nat, t: Txn)
    requires LogOk(r) && (t.req.b in r.branches || t.req.BranchReq?) && PlanOk(sha, r, versions, t)
    ensures forall x :: x in t.plan ==> Resolved(r.docs + t.docs, x.rows)
  {
    hide ReplayMessage, ReplayAuthor, MergeMessage, Net, GroupSeqs;
    if t.req.MergeReq? {
      ChangesResolved(r, t.req.b);
    } else if t.req.RebaseReq? {
      forall x | x in t.plan ensures Resolved(r.docs, x.rows) {
        var i :| 0 <= i < |t.plan| && t.plan[i] == x;
        RowsResolved(r, t.req.b, SourcesOf(r, t.req.b)[i]);
      }
      assert r.docs + map[] == r.docs;
    }
  }

  lemma PlanStays(sha: Sha, r: Repo, s: Repo, added: map<nat, Doc>, v: nat, w: nat, u: Txn)
    requires Undisturbed(r, s, added, u) && Locks(u) == AllLocks(u.req) && v <= w
    requires (u.req.b in r.branches || u.req.BranchReq?) && PlanOk(sha, r, v, u)
    requires Below(s.docs, w)
    ensures (u.req.b in s.branches || u.req.BranchReq?) && PlanOk(sha, s, w, u)
  {
    hide Refused, HashesOf, LogOk;
    SameReads(r, s, added, u);
    if u.req.CommitReq? {
      assert s.docs + u.docs == (r.docs + u.docs) + added;
      RowsMoreDocs(r.docs + u.docs, added, u.plan[0].rows, HashesOf(sha, u.req.changes[..u.resolved]));
    }
  }

  // ---------------------------------------------------------------------------
  // The commits a transaction has written
  // ---------------------------------------------------------------------------

  lemma StampedBranch(e: Env, commits: map<nat, Commit>, docs: map<nat, Doc>, b: string, x: Entry, n: nat)
    ensures Stamped(e, commits, docs, b, x, n).branch == b
  {
  }

  lemma {:induction false} MadeKeys(e: Env, commits: map<nat, Commit>, docs: map<nat, Doc>, b: string,
      plan: seq<Entry>, ns: seq<nat>, k: nat)
    requires k <= |plan| && k <= |ns|
    ensures var m, f := Made(e, commits, docs, b, plan, ns, k), MadeFiles(b, plan, ns, k);
      && m.Keys == f.Keys && (forall n :: n in m ==> n in ns && m[n].branch == b && f[n].branch == b)
      && (forall i :: 0 <= i < k ==> ns[i] in m)
  {
    hide Stamped;
    if k > 0 {
      MadeKeys(e, commits, docs, b, plan, ns, k - 1);
      StampedBranch(e, commits + Made(e, commits, docs, b, plan, ns, k - 1), docs, b, plan[k - 1], ns[k - 1]);
    }
  }

  /** Taking another number does not change the commits already written. */
  lemma {:induction false} MadePrefix(e: Env, commits: map<nat, Commit>, docs: map<nat, Doc>, b: string,
      plan: seq<Entry>, ns: seq<nat>, n: nat, k: nat)
    requires k <= |plan| && k <= |ns|
    ensures Made(e, commits, docs, b, plan, ns + [n], k) == Made(e, commits, docs, b, plan, ns, k)
    ensures MadeFiles(b, plan, ns + [n], k) == MadeFiles(b, plan, ns, k)
  {
    hide Stamped;
    if k > 0 {
      MadePrefix(e, commits, docs, b, plan, ns, n, k - 1);
    }
  }

  lemma StampedAgrees(e: Env, c: map<nat, Commit>, d: map<nat, Commit>, docs: map<nat, Doc>, more: map<nat, Doc>,
      b: string, x: Entry, n: nat)
    requires forall m :: m < n ==> (m in c && c[m].branch == b <==> m in d && d[m].branch == b)
    requires forall m :: m < n && m in c && c[m].branch == b ==> m in d && c[m] == d[m]
    requires Contents(docs, x.rows) == Contents(more, x.rows)
    ensures Stamped(e, c, docs, b, x, n) == Stamped(e, d, more, b, x, n)
  {
    PrevHashAgree(c, d, b, n);
  }

  lemma StampStays(e: Env, r: Repo, s: Repo, before: map<nat, Commit>, docs: map<nat, Doc>, more: map<nat, Doc>,
      b: string, x: Entry, n: nat)
    requires AgreesOn(r, s, b) && Contents(more, x.rows) == Contents(docs, x.rows)
    ensures Stamped(e, s.commits + before, more, b, x, n) == Stamped(e, r.commits + before, docs, b, x, n)
  {
    hide Stamped, Contents, RowsAt;
    assert forall m :: m in r.commits && r.commits[m].branch == b ==> CommitOn(r, b, m) && CommitOn(s, b, m);
    assert forall m :: m in s.commits && s.commits[m].branch == b ==> CommitOn(s, b, m) && CommitOn(r, b, m);
    forall m | m !in before
      ensures m in r.commits + before && (r.commits + before)[m].branch == b <==>
          m in s.commits + before && (s.commits + before)[m].branch == b
    {
      assert CommitOn(r, b, m) <==> CommitOn(s, b, m);
    }
    StampedAgrees(e, s.commits + before, r.commits + before, more, docs, b, x, n);
  }

  /** They do not depend on anything another transaction may change. */
  lemma {:induction false} MadeStays(e: Env, r: Repo, s: Repo, docs: map<nat, Doc>, more: map<nat, Doc>, b: string,
      plan: seq<Entry>, ns: seq<nat>, k: nat)
    requires k <= |plan| && k <= |ns| && AgreesOn(r, s, b)
    requires forall x :: x in plan ==> Contents(more, x.rows) == Contents(docs, x.rows)
    ensures Made(e, s.commits, more, b, plan, ns, k) == Made(e, r.commits, docs, b, plan, ns, k)
  {
    hide Stamped, Contents, RowsAt, AgreesOn;
    if k > 0 {
      MadeStays(e, r, s, docs, more, b, plan, ns, k - 1);
      assert plan[k - 1] in plan;
      StampStays(e, r, s, Made(e, r.commits, docs, b, plan, ns, k - 1), docs, more, b, plan[k - 1], ns[k - 1]);
    }
  }

  lemma SameContents(docs: map<nat, Doc>, mine: map<nat, Doc>, added: map<nat, Doc>, plan: seq<Entry>)
    requires added.Keys !! docs.Keys && added.Keys !! mine.Keys
    requires forall x :: x in plan ==> Resolved(docs + mine, x.rows)
    ensures forall x :: x in plan ==> Contents(docs + added + mine, x.rows) == Contents(docs + mine, x.rows)
  {
    hide Contents, Resolved;
    assert docs + added + mine == (docs + mine) + added;
    forall x | x in plan ensures Contents((docs + mine) + added, x.rows) == Contents(docs + mine, x.rows) {
      ContentsStable(docs + mine, added, x.rows);
    }
  }

  lemma MadeNothing(e: Env, commits: map<nat, Commit>, docs: map<nat, Doc>, b: string, plan: seq<Entry>, ns: seq<nat>)
    ensures Made(e, commits, docs, b, plan, ns, 0) == map[] && MadeFiles(b, plan, ns, 0) == map[]
  {
  }

  lemma MadeStaysFor(e: Env, sha: Sha, r: Repo, s: Repo, added: map<nat, Doc>, v: nat, u: Txn)
    requires Undisturbed(r, s, added, u) && u.phase.Writing? && WritingOk(e, sha, r, v, u)
    ensures u.commits == Made(e, s.commits, s.docs + u.docs, Target(u.req), u.plan, u.ns, u.done)
  {
    hide Refused, HashesOf, Stamped, Contents, RowsAt, AgreesOn, Made, NumbersOk, LogOk, Resolved, AddedOk, RowsOk;
    if u.done == 0 {
      MadeNothing(e, s.commits, s.docs + u.docs, Target(u.req), u.plan, u.ns);
      MadeNothing(e, r.commits, r.docs + u.docs, Target(u.req), u.plan, u.ns);
    } else {
      PlanResolved(sha, r, v, u);
      SameContents(r.docs, u.docs, added, u.plan);
      assert Target(u.req) in Locks(u);
      MadeStays(e, r, s, r.docs + u.docs, s.docs + u.docs, Target(u.req), u.plan, u.ns, u.done);
    }
  }

  lemma NumbersStay(r: Repo, s: Repo, added: map<nat, Doc>, u: Txn)
    requires Undisturbed(r, s, added, u) && Locks(u) == AllLocks(u.req) && NumbersOk(r, u.req, u.ns)
    ensures NumbersOk(s, u.req, u.ns)
  {
    hide LogOk;
    forall i, c | 0 <= i < |u.ns| && c in AllLocks(u.req) && c in s.branches ensures s.branches[c].head < u.ns[i] {
      assert AgreesOn(r, s, c);
    }
  }

  lemma WritingStays(e: Env, sha: Sha, r: Repo, s: Repo, added: map<nat, Doc>, v: nat, w: nat, u: Txn)
    requires Undisturbed(r, s, added, u) && u.phase.Writing? && WritingOk(e, sha, r, v, u)
    requires v <= w && Below(s.docs, w) && (forall x :: x in u.docs ==> x < w)
    ensures WritingOk(e, sha, s, w, u)
  {
    hide Undisturbed, PlanOk, Refused, NumbersOk, Made, MadeFiles, PlanOf;
    SameReads(r, s, added, u);
    PlanStays(sha, r, s, added, v, w, u);
    NumbersStay(r, s, added, u);
    MadeStaysFor(e, sha, r, s, added, v, u);
  }

  /** Whatever another transaction does outside u's locks, u is as well off as before. */
  lemma UndisturbedStays(e: Env, sha: Sha, r: Repo, s: Repo, added: map<nat, Doc>, v: nat, w: nat, u: Txn)
    requires Undisturbed(r, s, added, u) && TxnOk(e, sha, r, v, u) && v <= w && Below(s.docs, w)
    ensures TxnOk(e, sha, s, w, u)
  {
    hide WritingOk, LogOk;
    if u.phase.Writing? {
      WritingStays(e, sha, r, s, added, v, w, u);
    }
    if MAIN in Locks(u) {
      assert AgreesOn(r, s, MAIN);
    }
  }

  // ---------------------------------------------------------------------------
  // A commit of the transaction is the transaction of the specification
  // ---------------------------------------------------------------------------

  lemma NumbersAreAbove(r: Repo, b: string, ns: seq<nat>, q: Request)
    requires NumbersOk(r, q, ns) && b in AllLocks(q) && b in r.branches
    requires forall n :: n in ns ==> n < r.next
    ensures forall i :: 0 <= i < |ns| ==> Above(r, b, ns[i])
  {
    assert forall i :: 0 <= i < |ns| ==> ns[i] in ns;
  }

  lemma PutInSum<V>(m: map<nat, V>, o: map<nat, V>, n: nat, v: V)
    ensures (m + o)[n := v] == m + o[n := v]
  {
  }

  lemma AddIsStamp(e: Env, r: Repo, s: Repo, m: map<nat, Commit>, f: FileTable, b: string, x: Entry, n: nat)
    requires s.commits == r.commits + m && s.files == r.files + f && s.docs == r.docs
    ensures var t := AddCommit(e, s, b, x.author, x.message, x.at, n, x.rows);
      && t.commits == r.commits + m[n := Stamped(e, r.commits + m, r.docs, b, x, n)]
      && t.files == r.files + f[n := Rows(b, x.rows)] && t.docs == r.docs
  {
    hide PrevHash, Contents;
    PutInSum(r.commits, m, n, Stamped(e, r.commits + m, r.docs, b, x, n));
    PutInSum(r.files, f, n, Rows(b, x.rows));
  }

  lemma MadeOne(e: Env, r: Repo, docs: map<nat, Doc>, b: string, x: Entry, n: nat)
    ensures r.commits + Made(e, r.commits, r.docs + docs, b, [x], [n], 1)
         == AddCommit(e, WithDocs(r, docs), b, x.author, x.message, x.at, n, x.rows).commits
    ensures r.files + MadeFiles(b, [x], [n], 1)
         == AddCommit(e, WithDocs(r, docs), b, x.author, x.message, x.at, n, x.rows).files
  {
    AddIsStamp(e, WithDocs(r, docs), WithDocs(r, docs), map[], map[], b, x, n);
    MadeNothing(e, r.commits, r.docs + docs, b, [x], [n]);
    assert r.commits + map[] == r.commits && r.files + map[] == r.files;
    assert MadeFiles(b, [x], [n], 1) == map[][n := Rows(b, x.rows)];
    assert Made(e, r.commits, r.docs + docs, b, [x], [n], 1)
        == map[][n := Stamped(e, r.commits + map[], r.docs + docs, b, x, n)];
  }

  lemma HashesNonempty(sha: Sha, changes: seq<FileChange>)
    requires changes != []
    ensures HashesOf(sha, changes) != map[]
  {
    assert changes[|changes| - 1].path in HashesOf(sha, changes);
  }

  lemma ContentsKeys(docs: map<nat, Doc>, rows: Changes)
    ensures Contents(docs, rows).Keys == rows.Keys
  {
  }

  lemma CommitLater(e: Env, r: Repo, b: string, author: string, message: string, at: Timestamp, n: nat, rows: Changes,
      added: map<nat, Doc>)
    requires Inv(e, r) && b in r.branches && Above(r, b, n) && added.Keys !! r.docs.Keys
    ensures LaterThan(r, CommitTo(e, r, b, author, message, at, n, rows, added))
  {
    hide ChainOk, Covered, ReviewsOk, LaterThan, Advance;
    var s := WithDocs(r, added);
    WithDocsKeeps(e, r, added);
    LaterThanItself(r, s);
    AdvanceIsLater(e, s, b, author, message, at, n, rows);
    LaterThanTransitive(r, s, CommitTo(e, r, b, author, message, at, n, rows, added));
  }

  lemma FinishCommit(e: Env, sha: Sha, r: Repo, v: nat, t: Txn)
    requires Inv(e, r) && t.req.CommitReq? && t.phase.Writing? && TxnOk(e, sha, r, v, t) && t.done == |t.plan| == |t.ns|
    ensures var q, s := t.req, Apply(r, t);
      && s == CommitTo(e, r, q.b, q.author, q.message, q.at, t.ns[0], t.plan[0].rows, t.docs)
      && Contents(s.docs, t.plan[0].rows) == HashesOf(sha, q.changes)
      && Inv(e, s) && LaterThan(r, s) && t.docs.Keys !! r.docs.Keys
  {
    hide Inv, Stamped, Refused, HashesOf, Contents, LaterThan, LogOk, HeadsOk, NumbersOk;
    var q, n, rows := t.req, t.ns[0], t.plan[0].rows;
    assert t.ns == [n] && t.plan == [t.plan[0]];
    NumbersAreAbove(r, q.b, t.ns, q);
    MadeOne(e, r, t.docs, q.b, t.plan[0], n);
    assert q.changes[..|q.changes|] == q.changes;
    HashesNonempty(sha, q.changes);
    assert rows.Keys == Contents(r.docs + t.docs, rows).Keys by { ContentsKeys(r.docs + t.docs, rows); }
    CommitKeeps(e, r, q.b, q.author, q.message, q.at, n, rows, t.docs);
    CommitLater(e, r, q.b, q.author, q.message, q.at, n, rows, t.docs);
  }

  /** All that the commit of a transaction without new documents depends on. */
  ghost predicate Written(e: Env, r: Repo, t: Txn) {
    && (t.req.b in r.branches || t.req.BranchReq?) && MAIN in r.branches
    && t.plan == PlanOf(r, t.req) && |t.plan| == |t.ns| && t.docs == map[]
    && t.commits == Made(e, r.commits, r.docs, Target(t.req), t.plan, t.ns, |t.ns|)
    && t.files == MadeFiles(Target(t.req), t.plan, t.ns, |t.ns|)
  }

  lemma WritingIsWritten(e: Env, sha: Sha, r: Repo, v: nat, t: Txn)
    requires WritingOk(e, sha, r, v, t) && t.done == |t.plan| == |t.ns| && MAIN in r.branches && !t.req.CommitReq?
    ensures Written(e, r, t)
  {
    hide Refused, NumbersOk, PlanOf, Made, MadeFiles;
    assert r.docs + map[] == r.docs;
  }

  lemma AddCommitFields(e: Env, r: Repo, b: string, author: string, message: string, at: Timestamp, n: nat,
      rows: Changes)
    ensures var s := AddCommit(e, r, b, author, message, at, n, rows);
      s.branches == r.branches && s.docs == r.docs && s.reviews == r.reviews && s.next == r.next
  {
  }

  lemma ApplyMerge(e: Env, r: Repo, t: Txn)
    requires t.req.MergeReq? && Written(e, r, t) && t.req.b != MAIN
    ensures Apply(r, t) == MergeInto(e, r, t.req.b, t.req.author, t.req.at, if t.ns == [] then 0 else t.ns[0])
  {
    hide Stamped, ChangesOf, MergeMessage, AddCommit, Made, MadeFiles;
    var q := t.req;
    assert r.docs + map[] == r.docs;
    if ChangesOf(r, q.b) == map[] {
      MadeNothing(e, r.commits, r.docs, MAIN, t.plan, t.ns);
      assert r.commits + map[] == r.commits && r.files + map[] == r.files;
    } else {
      assert t.ns == [t.ns[0]] && t.plan == [t.plan[0]];
      assert WithDocs(r, map[]) == r;
      MadeOne(e, r, map[], MAIN, t.plan[0], t.ns[0]);
      AddCommitFields(e, r, MAIN, q.author, MergeMessage(q.b), q.at, t.ns[0], ChangesOf(r, q.b));
    }
  }

  lemma MergeOfNothing(e: Env, r: Repo, t: Txn)
    requires Inv(e, r) && t.req.MergeReq? && t.req.b != MAIN && Written(e, r, t) && t.ns == []
    ensures Inv(e, MergeInto(e, r, t.req.b, t.req.author, t.req.at, 0))
    ensures LaterThan(r, MergeInto(e, r, t.req.b, t.req.author, t.req.at, 0))
  {
    hide Inv, LaterThan, ChangesOf;
    WithStatusKeeps(e, r, t.req.b, Status.Merged);
    LaterThanItself(r, WithStatus(r, t.req.b, Status.Merged));
  }

  lemma FinishMerge(e: Env, sha: Sha, r: Repo, v: nat, t: Txn)
    requires Inv(e, r) && t.req.MergeReq? && t.phase.Writing? && TxnOk(e, sha, r, v, t) && t.done == |t.plan| == |t.ns|
    requires t.req.b in r.branches && MAIN in r.branches
    ensures var q, s := t.req, Apply(r, t);
      && s == MergeInto(e, r, q.b, q.author, q.at, if t.ns == [] then 0 else t.ns[0])
      && ConflictPaths(r, q.b) == {} && Inv(e, s) && LaterThan(r, s)
  {
    hide Inv, LaterThan, LogOk, HeadsOk, MainOk, NumbersOk, ConflictPaths, MergeInto, Apply, PlanOk, Made,
      MadeFiles, Written, ChangesOf;
    InvParts(e, r);
    var q := t.req;
    NumbersAreAbove(r, MAIN, t.ns, q);
    WritingIsWritten(e, sha, r, v, t);
    ApplyMerge(e, r, t);
    if t.ns == [] {
      MergeOfNothing(e, r, t);
    } else {
      MergeKeeps(e, r, q.b, q.author, q.at, t.ns[0]);
      MergeIsLater(e, r, q.b, q.author, q.at, t.ns[0]);
    }
  }

  lemma {:induction false} ReplayedMade(e: Env, r: Repo, b: string, author: string, at: Timestamp, ns: seq<nat>, k: nat)
    requires b in r.branches && k <= |SourcesOf(r, b)| == |ns|
    ensures var src := SourcesOf(r, b);
      var s, plan := Replayed(e, r, b, author, src, Repeat(at, |src|), ns, k), PlanOf(r, RebaseReq(b, author, at));
      && s.commits == r.commits + Made(e, r.commits, r.docs, b, plan, ns, k)
      && s.files == r.files + MadeFiles(b, plan, ns, k) && s.docs == r.docs
  {
    hide GroupSeqs, PrevHash, ReplayMessage, ReplayAuthor, RowsAt;
    hide AddCommit, Stamped;
    if k > 0 {
      ReplayedMade(e, r, b, author, at, ns, k - 1);
      var plan := PlanOf(r, RebaseReq(b, author, at));
      var before := Replayed(e, r, b, author, SourcesOf(r, b), Repeat(at, |SourcesOf(r, b)|), ns, k - 1);
      AddIsStamp(e, r, before, Made(e, r.commits, r.docs, b, plan, ns, k - 1), MadeFiles(b, plan, ns, k - 1), b,
                 plan[k - 1], ns[k - 1]);
    } else {
      assert r.commits + map[] == r.commits && r.files + map[] == r.files;
    }
  }

  lemma ApplyRebase(e: Env, r: Repo, t: Txn)
    requires t.req.RebaseReq? && Written(e, r, t) && t.mainHead == r.branches[MAIN].head
    ensures |SourcesOf(r, t.req.b)| == |t.ns|
    ensures Apply(r, t) == RebaseOnto(e, r, t.req.b, t.req.author, Repeat(t.req.at, |t.ns|), t.ns)
  {
    hide ReplayMessage, ReplayAuthor, RowsAt, GroupSeqs, Made, MadeFiles, Replayed;
    var q, k := t.req, |t.ns|;
    ReplayedMade(e, r, q.b, q.author, q.at, t.ns, k);
    assert r.docs + map[] == r.docs;
    StoreSpecs.ReplayedFields(e, r, q.b, q.author, SourcesOf(r, q.b), Repeat(q.at, k), t.ns, k);
  }

  lemma FinishRebase(e: Env, sha: Sha, r: Repo, v: nat, t: Txn)
    requires Inv(e, r) && t.req.RebaseReq? && t.phase.Writing? && TxnOk(e, sha, r, v, t) && t.done == |t.plan| == |t.ns|
    requires t.req.b in r.branches && MAIN in r.branches
    ensures var q, s := t.req, Apply(r, t);
      && |SourcesOf(r, q.b)| == |t.ns|
      && s == RebaseOnto(e, r, q.b, q.author, Repeat(q.at, |t.ns|), t.ns)
      && ConflictPaths(r, q.b) == {} && Inv(e, s) && LaterThan(r, s)
  {
    hide Inv, LaterThan, LogOk, HeadsOk, MainOk, ConflictPaths, RebaseOnto, Apply, PlanOk, Made, MadeFiles,
      Written, SourcesOf, PlanOf;
    InvParts(e, r);
    var q := t.req;
    var ats := Repeat(q.at, |t.ns|);
    NumbersAreAbove(r, MAIN, t.ns, q);
    NumbersAreAbove(r, q.b, t.ns, q);
    WritingIsWritten(e, sha, r, v, t);
    ApplyRebase(e, r, t);
    RebaseKeeps(e, r, q.b, q.author, ats, t.ns);
    RebaseIsLater(e, r, q.b, q.author, ats, t.ns);
  }

  lemma FinishOther(e: Env, sha: Sha, r: Repo, v: nat, t: Txn)
    requires Inv(e, r) && t.phase.Writing? && TxnOk(e, sha, r, v, t) && t.done == |t.plan| == |t.ns|
    requires (t.req.b in r.branches || t.req.BranchReq?) && MAIN in r.branches
    requires t.req.BranchReq? || t.req.DeleteReq? || t.req.ReviewReq?
    ensures Inv(e, Apply(r, t)) && LaterThan(r, Apply(r, t))
    ensures match t.req
      case BranchReq(b, draft, at) => b !in r.branches && Apply(r, t) == BranchOff(r, b, draft, at)
      case DeleteReq(b) => Apply(r, t) == WithStatus(r, b, Abandoned)
      case ReviewReq(b, id, reviewer, verdict) => Apply(r, t) == AddReview(r, b, id, reviewer, verdict)
      case _ => false
  {
    hide Inv, LaterThan, LogOk, HeadsOk, MainOk, ChangesOf, StoreSpecs.AuthoredAbove;
    MadeNothing(e, r.commits, r.docs + t.docs, Target(t.req), t.plan, t.ns);
    assert r.commits + map[] == r.commits && r.files + map[] == r.files && r.docs + map[] == r.docs;
    match t.req {
      case BranchReq(b, draft, at) => BranchOffKeeps(e, r, b, draft, at);
      case DeleteReq(b) => WithStatusKeeps(e, r, b, Abandoned);
      case ReviewReq(b, id, reviewer, verdict) => AddReviewKeeps(e, r, b, id, reviewer, verdict);
    }
    LaterThanItself(r, Apply(r, t));
  }

  /** The documents a transaction adds are named by the rows it adds. */
  lemma WrittenDocs(e: Env, sha: Sha, r: Repo, v: nat, t: Txn)
    requires WritingOk(e, sha, r, v, t) && t.done == |t.plan| == |t.ns|
    ensures (forall w :: w in t.docs ==> Referenced(t.files, w)) && t.docs.Keys !! r.docs.Keys
  {
    hide Refused, NumbersOk, Made, PlanOf, RowsOk;
    if t.req.CommitReq? {
      assert t.files[t.ns[0]] == Rows(t.req.b, t.plan[0].rows);
    }
  }

  lemma FreshRows(e: Env, sha: Sha, r: Repo, v: nat, t: Txn)
    requires LogOk(r) && WritingOk(e, sha, r, v, t)
    ensures t.files.Keys !! r.files.Keys
  {
    hide Refused, PlanOk, Made, MadeFiles;
    MadeKeys(e, r.commits, r.docs + t.docs, Target(t.req), t.plan, t.ns, t.done);
  }

  lemma FinishNoOrphans(e: Env, sha: Sha, r: Repo, v: nat, t: Txn)
    requires Inv(e, r) && NoOrphans(r) && WritingOk(e, sha, r, v, t) && t.done == |t.plan| == |t.ns|
    requires MAIN in r.branches
    ensures NoOrphans(Apply(r, t)) && t.docs.Keys !! r.docs.Keys
  {
    hide Refused, NumbersOk, PlanOk, Made, MadeFiles, ChainOk, HeadsOk, MainOk, Covered, ReviewsOk;
    WrittenDocs(e, sha, r, v, t);
    FreshRows(e, sha, r, v, t);
    forall w | w in Apply(r, t).docs ensures Referenced(r.files + t.files, w) {
      if w in t.docs {
        var n :| n in t.files && Some(w) in t.files[n].changes.Values;
        assert (r.files + t.files)[n] == t.files[n];
      } else {
        var n :| n in r.files && Some(w) in r.files[n].changes.Values;
        assert (r.files + t.files)[n] == r.files[n];
      }
    }
  }

  lemma FinishKeeps(e: Env, sha: Sha, r: Repo, v: nat, t: Txn)
    requires Inv(e, r) && NoOrphans(r) && t.phase.Writing? && TxnOk(e, sha, r, v, t) && t.done == |t.plan| == |t.ns|
    requires (t.req.b in r.branches || t.req.BranchReq?) && MAIN in r.branches
    ensures Inv(e, Apply(r, t)) && NoOrphans(Apply(r, t))
    ensures LaterThan(r, Apply(r, t)) && t.docs.Keys !! r.docs.Keys
  {
    hide Inv, LaterThan, Apply, NoOrphans, WritingOk;
    FinishNoOrphans(e, sha, r, v, t);
    match t.req
    case CommitReq(_, _, _, _, _) => FinishCommit(e, sha, r, v, t);
    case MergeReq(_, _, _, _) => FinishMerge(e, sha, r, v, t);
    case RebaseReq(_, _, _) => FinishRebase(e, sha, r, v, t);
    case _ => FinishOther(e, sha, r, v, t);
  }
}
