/**
 * Runs of any number of transactions under any schedule: the store stays sound, every branch is
 * committed to in sequence order, and no schedule deadlocks or runs for ever.
 */
module Schedules {
  import opened Wrappers
  import opened Timestamps
  import opened CommitHashing
  import opened Tables
  import opened Transactions
  import opened Resolving
  import opened Views
  import opened Purging
  import opened Interleaving
  import opened InterleavingProofs
  import StoreSpecs

  // ---------------------------------------------------------------------------
  // A transaction's own steps
  // ---------------------------------------------------------------------------

  lemma SameTablesAgree(r: Repo, s: Repo, c: string)
    requires r.branches == s.branches && r.commits == s.commits && r.files == s.files && c in r.branches
    ensures AgreesOn(r, s, c)
  {
  }

  lemma AllocIsQuiet(e: Env, r: Repo, u: Txn)
    requires Inv(e, r) && Locks(u) <= r.branches.Keys
    ensures Undisturbed(r, StoreSpecs.Alloc(r, 1), map[], u)
  {
    hide LogOk, ChainOk, HeadsOk, MainOk, Covered, ReviewsOk, AgreesOn;
    assert r.docs + map[] == r.docs;
    forall c | c in r.branches ensures AgreesOn(r, StoreSpecs.Alloc(r, 1), c) {
      SameTablesAgree(r, StoreSpecs.Alloc(r, 1), c);
    }
  }

  lemma NothingResolved(sha: Sha, docs: map<nat, Doc>, v: nat, changes: seq<FileChange>)
    requires Below(docs, v)
    ensures AddedOk(docs, Resolution(map[], map[], v)) && RowsOk(docs + map[], map[], HashesOf(sha, changes[..0]))
  {
    assert docs + map[] == docs;
  }

  lemma OwnRead(e: Env, sha: Sha, r: Repo, v: nat, t: Txn)
    requires TxnOk(e, sha, r, v, t) && t.phase.Holding? && Below(r.docs, v)
    requires (t.req.b in r.branches || t.req.BranchReq?) && !Refused(r, t.req)
    ensures TxnOk(e, sha, r, v, t.(phase := Writing, plan := PlanOf(r, t.req)))
  {
    hide Refused, Stamped, Net, GroupSeqs, MergeMessage, ReplayMessage, ReplayAuthor, ChangesOf, RowsAt;
    assert r.docs + map[] == r.docs;
    if t.req.CommitReq? {
      NothingResolved(sha, r.docs, v, t.req.changes);
    }
  }

  lemma AllocateNumbers(e: Env, r: Repo, q: Request, ns: seq<nat>)
    requires Inv(e, r) && NumbersOk(StoreSpecs.Alloc(r, 1), q, ns) && (forall n :: n in ns ==> n < r.next)
    ensures NumbersOk(StoreSpecs.Alloc(r, 1), q, ns + [r.next])
  {
    hide ChainOk, Covered, ReviewsOk, MainOk;
    assert forall i :: 0 <= i < |ns| ==> ns[i] in ns;
  }

  lemma AllocateWriting(e: Env, sha: Sha, r: Repo, v: nat, t: Txn)
    requires Inv(e, r) && t.phase.Writing? && |t.ns| == t.done < |t.plan|
    requires (forall n :: n in t.ns ==> n < r.next)
    requires WritingOk(e, sha, StoreSpecs.Alloc(r, 1), v, t)
    ensures WritingOk(e, sha, StoreSpecs.Alloc(r, 1), v, t.(ns := t.ns + [r.next]))
  {
    hide Refused, PlanOf, Stamped, AddedOk, RowsOk, HashesOf, Inv, NumbersOk, Made, MadeFiles;
    var s := StoreSpecs.Alloc(r, 1);
    AllocateNumbers(e, r, t.req, t.ns);
    MadePrefix(e, s.commits, s.docs + t.docs, Target(t.req), t.plan, t.ns, r.next, t.done);
  }

  lemma OwnAllocate(e: Env, sha: Sha, r: Repo, v: nat, t: Txn)
    requires Inv(e, r) && Below(r.docs, v) && TxnOk(e, sha, r, v, t)
    requires t.phase.Writing? && |t.ns| == t.done < |t.plan|
    ensures TxnOk(e, sha, StoreSpecs.Alloc(r, 1), v, t.(ns := t.ns + [r.next]))
  {
    hide WritingOk;
    AllocIsQuiet(e, r, t);
    UndisturbedStays(e, sha, r, StoreSpecs.Alloc(r, 1), map[], v, v, t);
    AllocateWriting(e, sha, r, v, t);
  }

  lemma AddedBelow(docs: map<nat, Doc>, x: Resolution)
    requires AddedOk(docs, x)
    ensures Below(docs, x.nextVersion) && (forall v :: v in x.added ==> v < x.nextVersion)
  {
    assert forall v :: v in docs ==> v in docs + x.added;
    assert forall v :: v in x.added ==> v in docs + x.added;
  }

  lemma NotYetResolved(sha: Sha, docs: map<nat, Doc>, changes: seq<FileChange>, k: nat, rows: Changes)
    requires DistinctChanges(changes) && k < |changes| && RowsOk(docs, rows, HashesOf(sha, changes[..k]))
    ensures changes[k].path !in rows
  {
    HashesOfOther(sha, changes[..k], changes[k].path);
    ContentsKeys(docs, rows);
  }

  lemma HashesNext(sha: Sha, changes: seq<FileChange>, k: nat)
    requires k < |changes|
    ensures HashesOf(sha, changes[..k + 1])
         == HashesOf(sha, changes[..k])[changes[k].path := HashOfContent(sha, changes[k].content)]
  {
    var files := changes[..k + 1];
    assert files[..k] == changes[..k] && files[k] == changes[k] && |files| - 1 == k;
  }

  lemma ResolveOneGrows(sha: Sha, docs: map<nat, Doc>, p: Resolution, f: FileChange)
    ensures var x := ResolveOne(sha, docs, p, f);
      p.nextVersion <= x.nextVersion && (forall v :: v in x.added && v !in p.added ==> p.nextVersion <= v)
  {
  }

  lemma OwnResolve(e: Env, sha: Sha, s: Sys, t: Txn)
    requires Below(s.db.docs, s.versions) && TxnOk(e, sha, s.db, s.versions, t)
    requires t.phase.Writing? && |t.ns| == t.done + 1
    requires t.req.CommitReq? && t.resolved < |t.req.changes| && |t.plan| == 1
    ensures var x := NextResolution(sha, s, t);
      && s.versions <= x.nextVersion && Below(s.db.docs, x.nextVersion)
      && (forall w :: w in x.added && w !in t.docs ==> s.versions <= w)
      && TxnOk(e, sha, s.db, x.nextVersion, t.(plan := [t.plan[0].(rows := x.rows)], docs := x.added,
        resolved := t.resolved + 1))
  {
    hide Refused, Stamped, ResolveOne, AddedOk, RowsOk, HashesOf, NumbersOk;
    var q, p, f := t.req, Resolution(t.docs, t.plan[0].rows, s.versions), t.req.changes[t.resolved];
    var hashes := HashesOf(sha, q.changes[..t.resolved]);
    NotYetResolved(sha, s.db.docs + t.docs, q.changes, t.resolved, p.rows);
    ResolveOneOk(sha, s.db.docs, p, f, hashes);
    ResolveOneGrows(sha, s.db.docs, p, f);
    HashesNext(sha, q.changes, t.resolved);
    var x := NextResolution(sha, s, t);
    AddedBelow(s.db.docs, x);
    MadeNothing(e, s.db.commits, s.db.docs + t.docs, q.b, t.plan, t.ns);
    MadeNothing(e, s.db.commits, s.db.docs + x.added, q.b, [t.plan[0].(rows := x.rows)], t.ns);
  }

  lemma OwnStamp(e: Env, sha: Sha, r: Repo, v: nat, t: Txn)
    requires TxnOk(e, sha, r, v, t) && t.phase.Writing? && |t.ns| == t.done + 1 && t.done < |t.plan|
    requires t.req.CommitReq? ==> t.resolved == |t.req.changes|
    ensures var n, x, b := t.ns[t.done], t.plan[t.done], Target(t.req);
      TxnOk(e, sha, r, v, t.(
        commits := t.commits[n := Stamped(e, r.commits + t.commits, r.docs + t.docs, b, x, n)],
        files := t.files[n := Rows(b, x.rows)], done := t.done + 1))
  {
    hide Refused, Stamped, PlanOf, NumbersOk, AddedOk, RowsOk, HashesOf;
  }

  lemma NumbersAscend(r: Repo, q: Request, ns: seq<nat>)
    requires NumbersOk(r, q, ns)
    ensures forall n :: n in ns ==> n <= ns[|ns| - 1]
  {
  }

  /** A finished writer's numbers are at or below the new head of its branch. */
  lemma OwnFinish(e: Env, sha: Sha, r: Repo, v: nat, t: Txn)
    requires Inv(e, r) && TxnOk(e, sha, r, v, t) && t.phase.Writing? && t.done == |t.plan| == |t.ns|
    requires (t.req.b in r.branches || t.req.BranchReq?) && MAIN in r.branches
    ensures TxnOk(e, sha, Apply(r, t), v, t.(phase := Ended(Commits(t.req))))
  {
    hide Refused, Stamped, NumbersOk, AddedOk, RowsOk, HashesOf, Made, MadeFiles, ChangesOf, RowsAt, GroupSeqs, Inv;
    NumbersAscend(r, t.req, t.ns);
  }

  // ---------------------------------------------------------------------------
  // A commit does not reach into other transactions' locks
  // ---------------------------------------------------------------------------

  lemma UpdatesApart(r: Repo, t: Txn, c: string)
    requires t.req.b in r.branches || t.req.BranchReq?
    requires MAIN in r.branches && |t.ns| == |t.plan| && c in r.branches && c !in AllLocks(t.req)
    requires t.req.BranchReq? ==> t.req.b !in r.branches
    ensures c in UpdatedBranches(r, t) && UpdatedBranches(r, t)[c] == r.branches[c]
  {
  }

  lemma BranchIsNew(e: Env, sha: Sha, r: Repo, v: nat, t: Txn)
    requires WritingOk(e, sha, r, v, t)
    ensures t.req.BranchReq? ==> t.req.b !in r.branches
  {
    hide PlanOk, NumbersOk;
  }

  /** What a transaction wrote is on its target, under numbers not in the committed tables. */
  lemma WrittenApart(e: Env, sha: Sha, r: Repo, v: nat, t: Txn, c: string)
    requires LogOk(r) && WritingOk(e, sha, r, v, t) && c in r.branches && c !in AllLocks(t.req)
    ensures forall n :: n in t.commits ==> n !in r.commits && t.commits[n].branch != c
    ensures forall n :: n in t.files ==> n !in r.files && t.files[n].branch != c
  {
    hide Stamped, Made, MadeFiles, Refused, AddedOk, RowsOk;
    if t.req.BranchReq? || t.req.ReviewReq? || t.req.DeleteReq? {
      MadeNothing(e, r.commits, r.docs + t.docs, Target(t.req), t.plan, t.ns);
    } else {
      MadeKeys(e, r.commits, r.docs + t.docs, Target(t.req), t.plan, t.ns, t.done);
    }
  }

  lemma SumAgrees(r: Repo, s: Repo, commits: map<nat, Commit>, files: FileTable, c: string)
    requires s.commits == r.commits + commits && s.files == r.files + files
    requires c in r.branches && c in s.branches && r.branches[c] == s.branches[c]
    requires forall n :: n in commits ==> n !in r.commits && commits[n].branch != c
    requires forall n :: n in files ==> n !in r.files && files[n].branch != c
    ensures AgreesOn(r, s, c)
  {
  }

  lemma FinishAgrees(e: Env, sha: Sha, r: Repo, v: nat, t: Txn, c: string)
    requires Inv(e, r) && TxnOk(e, sha, r, v, t) && t.phase.Writing? && t.done == |t.plan| == |t.ns|
    requires (t.req.b in r.branches || t.req.BranchReq?) && MAIN in r.branches
    requires c in r.branches && c !in AllLocks(t.req)
    ensures AgreesOn(r, Apply(r, t), c)
  {
    hide LogOk, Stamped, AddedOk, RowsOk, HashesOf, Made, MadeFiles, ChangesOf, GroupSeqs, Inv, Refused, NumbersOk,
      RowsAt, UpdatedBranches, PlanOk, AgreesOn;
    InvParts(e, r);
    WrittenApart(e, sha, r, v, t, c);
    BranchIsNew(e, sha, r, v, t);
    UpdatesApart(r, t, c);
    SumAgrees(r, Apply(r, t), t.commits, t.files, c);
  }

  lemma FinishNumbers(e: Env, sha: Sha, r: Repo, v: nat, t: Txn)
    requires WritingOk(e, sha, r, v, t) && t.done == |t.plan| == |t.ns| && MAIN in r.branches
    ensures forall n :: n in Apply(r, t).commits && n !in r.commits ==> n in t.ns
  {
    hide Stamped, Made, MadeFiles, ChangesOf, GroupSeqs, Refused, PlanOk, NumbersOk;
    MadeKeys(e, r.commits, r.docs + t.docs, Target(t.req), t.plan, t.ns, t.done);
  }

  lemma HeadsGrow(r: Repo, s: Repo)
    requires LaterThan(r, s)
    ensures forall c :: c in r.branches ==> c in s.branches && r.branches[c].head <= s.branches[c].head
  {
  }

  lemma FinishUndisturbed(e: Env, sha: Sha, r: Repo, v: nat, t: Txn, u: Txn)
    requires NoOrphans(r) && Inv(e, r) && TxnOk(e, sha, r, v, t) && t.phase.Writing? && t.done == |t.plan| == |t.ns|
    requires (t.req.b in r.branches || t.req.BranchReq?) && MAIN in r.branches
    requires TxnOk(e, sha, r, v, u) && Apart(t, u)
    ensures Undisturbed(r, Apply(r, t), t.docs, u)
  {
    hide NoOrphans, Stamped, Made, MadeFiles, ChangesOf, GroupSeqs, WritingOk, LaterThan, AgreesOn;
    var s := Apply(r, t);
    FinishKeeps(e, sha, r, v, t);
    forall c | c in Locks(u) ensures AgreesOn(r, s, c) {
      FinishAgrees(e, sha, r, v, t, c);
    }
    FinishNumbers(e, sha, r, v, t);
    assert forall c :: c in r.branches ==> r.branches[c].head <= s.branches[c].head by { HeadsGrow(r, s); }
  }

  // ---------------------------------------------------------------------------
  // Every step keeps the invariant
  // ---------------------------------------------------------------------------

  predicate Quick(a: Action) { a.Refuse? || a.LockMain? || a.LockBranch? || a.NotFound? || a.Reject? || a.Abort? }

  lemma OwnQuick(e: Env, sha: Sha, s: Sys, i: nat, a: Action)
    requires Enabled(s, i, a) && Quick(a) && TxnOk(e, sha, s.db, s.versions, s.txns[i])
    ensures TxnOk(e, sha, s.db, s.versions, NextTxn(e, sha, s, i, a))
  {
    hide WritingOk, Refused, Free;
  }

  /** A step leaves its own transaction in order. */
  lemma OwnStep(e: Env, sha: Sha, s: Sys, i: nat, a: Action)
    requires Inv(e, s.db) && Below(s.db.docs, s.versions) && Enabled(s, i, a)
      && TxnOk(e, sha, s.db, s.versions, s.txns[i])
    ensures var o := Next(e, sha, s, i, a); TxnOk(e, sha, o.db, o.versions, o.txns[i])
  {
    hide Inv, TxnOk, Below, Refused, Stamped, PlanOf, Apply, NextResolution, Free;
    var t := s.txns[i];
    match a
    case Read => OwnRead(e, sha, s.db, s.versions, t);
    case Allocate => OwnAllocate(e, sha, s.db, s.versions, t);
    case ResolveFile => OwnResolve(e, sha, s, t);
    case Stamp => OwnStamp(e, sha, s.db, s.versions, t);
    case Finish =>
      if Commits(t.req) {
        OwnFinish(e, sha, s.db, s.versions, t);
      } else {
        OwnQuick(e, sha, s, i, Abort);
      }
    case _ => OwnQuick(e, sha, s, i, a);
  }

  /** A step leaves the tables sound and only adds to history. */
  lemma DbStep(e: Env, sha: Sha, s: Sys, i: nat, a: Action)
    requires Inv(e, s.db) && NoOrphans(s.db) && Below(s.db.docs, s.versions) && Enabled(s, i, a)
      && TxnOk(e, sha, s.db, s.versions, s.txns[i])
    ensures var o := Next(e, sha, s, i, a);
      && Inv(e, o.db) && NoOrphans(o.db) && Below(o.db.docs, o.versions)
      && LaterThan(s.db, o.db) && s.versions <= o.versions
  {
    hide Inv, Refused, Stamped, PlanOf, LaterThan, WritingOk, UpdatedBranches, ResolveOne, Referenced;
    var t := s.txns[i];
    LaterThanItself(s.db, s.db);
    match a
    case Allocate =>
      StoreSpecs.AllocKeeps(e, s.db, 1);
      LaterThanItself(s.db, StoreSpecs.Alloc(s.db, 1));
    case ResolveFile => ResolveOneGrows(sha, s.db.docs, Resolution(t.docs, t.plan[0].rows, s.versions),
      t.req.changes[t.resolved]);
    case Finish =>
      FinishKeeps(e, sha, s.db, s.versions, t);
    case _ =>
  }

  lemma QuietIsUndisturbed(e: Env, r: Repo, s: Repo, u: Txn)
    requires Inv(e, r) && Locks(u) <= r.branches.Keys && (s == r || s == StoreSpecs.Alloc(r, 1))
    ensures Undisturbed(r, s, map[], u)
  {
    hide ChainOk, HeadsOk, MainOk, Covered, ReviewsOk, AgreesOn, LogOk;
    assert r.docs + map[] == r.docs;
    forall c | c in r.branches ensures AgreesOn(r, s, c) {
      SameTablesAgree(r, s, c);
    }
  }

  lemma OtherStep(e: Env, sha: Sha, s: Sys, i: nat, a: Action, u: Txn)
    requires Inv(e, s.db) && NoOrphans(s.db) && Below(s.db.docs, s.versions) && Enabled(s, i, a)
      && TxnOk(e, sha, s.db, s.versions, s.txns[i])
    requires TxnOk(e, sha, s.db, s.versions, u) && Apart(s.txns[i], u)
    ensures var o := Next(e, sha, s, i, a); TxnOk(e, sha, o.db, o.versions, u)
  {
    hide Inv, NoOrphans, Refused, Stamped, PlanOf, LaterThan, WritingOk, UpdatedBranches, ResolveOne, Undisturbed,
      Apply, NextResolution, Free;
    var t, o := s.txns[i], Next(e, sha, s, i, a);
    DbStep(e, sha, s, i, a);
    if a.Finish? && Commits(t.req) {
      FinishUndisturbed(e, sha, s.db, s.versions, t, u);
      UndisturbedStays(e, sha, s.db, o.db, t.docs, s.versions, o.versions, u);
    } else {
      assert o.db == s.db || o.db == StoreSpecs.Alloc(s.db, 1);
      QuietIsUndisturbed(e, s.db, o.db, u);
      UndisturbedStays(e, sha, s.db, o.db, map[], s.versions, o.versions, u);
    }
  }

  /** Locks are only granted when free, and numbers and versions are new. */
  lemma ApartStep(e: Env, sha: Sha, s: Sys, i: nat, a: Action, j: nat)
    requires Enabled(s, i, a) && j < |s.txns| && i != j && Apart(s.txns[i], s.txns[j])
    requires TxnOk(e, sha, s.db, s.versions, s.txns[i]) && TxnOk(e, sha, s.db, s.versions, s.txns[j])
    ensures Apart(NextTxn(e, sha, s, i, a), s.txns[j]) && Apart(s.txns[j], NextTxn(e, sha, s, i, a))
  {
    hide Refused, Stamped, PlanOf, WritingOk, ResolveOne;
    if a.ResolveFile? {
      var t := s.txns[i];
      ResolveOneGrows(sha, s.db.docs, Resolution(t.docs, t.plan[0].rows, s.versions), t.req.changes[t.resolved]);
    }
  }

  lemma InRange(s: Sys, i: nat, a: Action)
    requires Enabled(s, i, a)
    ensures i < |s.txns|
  {
  }

  /** Every step of every schedule keeps the invariant and only adds to history. */
  lemma StepKeeps(e: Env, sha: Sha, s: Sys, i: nat, a: Action)
    requires SysOk(e, sha, s) && Enabled(s, i, a)
    ensures SysOk(e, sha, Next(e, sha, s, i, a)) && LaterThan(s.db, Next(e, sha, s, i, a).db)
  {
    hide Inv, NoOrphans, TxnOk, Enabled, NextTxn, Apply, Apart, LaterThan, Below, NextResolution;
    InRange(s, i, a);
    var o := Next(e, sha, s, i, a);
    DbStep(e, sha, s, i, a);
    OwnStep(e, sha, s, i, a);
    forall j: nat | j < |s.txns| && j != i
      ensures TxnOk(e, sha, o.db, o.versions, o.txns[j]) && Apart(o.txns[i], o.txns[j]) && Apart(o.txns[j], o.txns[i])
    {
      OtherStep(e, sha, s, i, a, s.txns[j]);
      ApartStep(e, sha, s, i, a, j);
    }
  }
}
