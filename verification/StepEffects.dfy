/**
 * What the commit of an interleaved transaction leaves in the tables of that moment, and what was
 * checked, column by column.
 */
module StepEffects {
  import opened Wrappers
  import opened Strings
  import opened Timestamps
  import opened CommitHashing
  import opened Tables
  import opened Transactions
  import opened Resolving
  import opened Views
  import opened Purging
  import opened Interleaving
  import opened InterleavingProofs
  import opened Schedules
  import opened Runs
  import opened Effects
  import StoreSpecs

  lemma SystemTables(e: Env, sha: Sha, s: Sys)
    requires SysOk(e, sha, s)
    ensures Inv(e, s.db) && LogOk(s.db) && HeadsOk(s.db) && StoreSpecs.Sound(e, s.db) && MAIN in s.db.branches
  {
    hide LogOk, ChainOk, HeadsOk, Covered, ReviewsOk, NoOrphans, TxnOk, Apart;
  }

  /** The request at its commit passes its checks; the numbers it took are new. */
  lemma AtCommit(e: Env, sha: Sha, s: Sys, i: nat)
    requires SysOk(e, sha, s) && Enabled(s, i, Finish)
    ensures var t := s.txns[i];
      && Performs(e, sha, s.db, t.req, t.ns, Next(e, sha, s, i, Finish).db)
      && Acceptable(t.req)
      && (forall j, k :: 0 <= j < k < |t.ns| ==> t.ns[j] != t.ns[k])
      && (forall j :: 0 <= j < |t.ns| ==> t.ns[j] !in s.db.commits)
  {
    hide Inv, Refused, Made, MadeFiles, PlanOk, Does, Apart, NoOrphans, Acceptable;
    FinishRefines(e, sha, s, i);
    assert TxnOk(e, sha, s.db, s.versions, s.txns[i]);
  }

  lemma {:induction false} HashesOfMeans(sha: Sha, changes: seq<FileChange>)
    requires DistinctChanges(changes)
    ensures forall p :: p in HashesOf(sha, changes) <==> Names(changes, p)
    ensures forall i :: 0 <= i < |changes| ==>
      && changes[i].path in HashesOf(sha, changes)
      && HashesOf(sha, changes)[changes[i].path]
         == if changes[i].content.None? then "" else sha(changes[i].content.value)
  {
    hide Names;
    if changes == [] {
      NoNames();
    } else {
      var n := |changes| - 1;
      HashesOfMeans(sha, changes[..n]);
      forall p ensures Names(changes, p) <==> Names(changes[..n], p) || changes[n].path == p {
        NamesSnoc(changes, p);
      }
      assert forall i :: 0 <= i < n ==> changes[..n][i] == changes[i];
    }
  }

  lemma PathsHashed(sha: Sha, docs: map<nat, Doc>, rows: Changes, changes: seq<FileChange>)
    requires Contents(docs, rows) == HashesOf(sha, changes) && DistinctChanges(changes)
    ensures forall p :: p in rows <==> Names(changes, p)
    ensures forall i :: 0 <= i < |changes| ==>
      && changes[i].path in HashesAt(docs, rows)
      && HashesAt(docs, rows)[changes[i].path] == if changes[i].content.None? then "" else sha(changes[i].content.value)
  {
    hide Contents, HashesOf, Names;
    HashesAtAre(docs, rows);
    HashesOfMeans(sha, changes);
    assert forall p :: p in rows <==> p in HashesAt(docs, rows);
  }

  /** A commit finishes on an active branch, whose head it moves to the number it took. */
  lemma FinishedCommit(e: Env, sha: Sha, s: Sys, i: nat)
    requires SysOk(e, sha, s) && Enabled(s, i, Finish) && s.txns[i].req.CommitReq?
    ensures var r, o, q, ns := s.db, Next(e, sha, s, i, Finish).db, s.txns[i].req, s.txns[i].ns;
      && |ns| == 1 && ns[0] !in r.commits && q.b in r.branches && r.branches[q.b].status == Active
      && o.branches == r.branches[q.b := r.branches[q.b].(head := ns[0])] && o.reviews == r.reviews
      && o.files.Keys == r.files.Keys + {ns[0]} && o.commits.Keys == r.commits.Keys + {ns[0]}
      && (var c := o.commits[ns[0]];
          c.branch == q.b && c.author == q.author && c.message == q.message && c.createdAt == q.at)
      && o.files[ns[0]].branch == q.b
      && (forall p :: p in o.files[ns[0]].changes <==> exists j :: 0 <= j < |q.changes| && q.changes[j].path == p)
      && (forall j :: 0 <= j < |q.changes| ==>
            && q.changes[j].path in HashesAt(o.docs, o.files[ns[0]].changes)
            && HashesAt(o.docs, o.files[ns[0]].changes)[q.changes[j].path]
               == if q.changes[j].content.None? then "" else sha(q.changes[j].content.value))
  {
    hide Inv, SysOk, CommitTo, Contents, HashesOf, HashesAt, PrevHash, Enabled, Next, DistinctChanges;
    InRange(s, i, Finish);
    AtCommit(e, sha, s, i);
    var r, o, q, n := s.db, Next(e, sha, s, i, Finish).db, s.txns[i].req, s.txns[i].ns[0];
    var rows: Changes, added: map<nat, Doc> :| added.Keys !! r.docs.Keys
      && Contents(r.docs + added, rows) == HashesOf(sha, q.changes)
      && o == CommitTo(e, r, q.b, q.author, q.message, q.at, n, rows, added);
    CommitColumns(e, r, q.b, q.author, q.message, q.at, n, rows, added);
    PathsHashed(sha, o.docs, rows, q.changes);
    assert forall p :: p in rows <==> Names(q.changes, p);
  }

  lemma MergeNumbers(e: Env, sha: Sha, s: Sys, i: nat)
    requires SysOk(e, sha, s) && Enabled(s, i, Finish) && s.txns[i].req.MergeReq?
    ensures s.txns[i].req.b in s.db.branches
    ensures |s.txns[i].ns| == if ChangesOf(s.db, s.txns[i].req.b) == map[] then 0 else 1
  {
    hide Inv, Refused, Made, MadeFiles, NumbersOk, Apart, NoOrphans, ChangesOf;
    assert TxnOk(e, sha, s.db, s.versions, s.txns[i]);
  }

  /** A merge finishes on an active branch that is no draft and shares no changed path with main. */
  lemma FinishedMerge(e: Env, sha: Sha, s: Sys, i: nat)
    requires SysOk(e, sha, s) && Enabled(s, i, Finish) && s.txns[i].req.MergeReq?
    ensures var r, o, q := s.db, Next(e, sha, s, i, Finish).db, s.txns[i].req;
      && q.b in r.branches && "main" in r.branches && r.branches[q.b].status == Active && !r.branches[q.b].draft
      && (q.dryRun ==> o == r)
      && var base := r.branches[q.b].base;
        var ours, theirs := Net(r.files, q.b, base, r.next), Net(r.files, "main", base, r.next);
        && (forall p :: p in ours ==> p !in theirs)
        && (!q.dryRun ==> q.b in o.branches && o.branches[q.b].status == Status.Merged)
        && (!q.dryRun && ours == map[] ==> o.files == r.files && o.commits == r.commits)
        && (!q.dryRun && ours != map[] ==>
              && |s.txns[i].ns| == 1 && s.txns[i].ns[0] in o.commits
              && (var n := s.txns[i].ns[0];
                  && o.files == r.files[n := Rows("main", ours)] && "main" in o.branches && o.branches["main"].head == n
                  && o.commits[n].branch == "main" && o.commits[n].author == q.author))
  {
    hide Inv, SysOk, PrevHash, Enabled, Next, MergeInto, Net, HashesAt;
    MergeNumbers(e, sha, s, i);
    InRange(s, i, Finish);
    SystemTables(e, sha, s);
    AtCommit(e, sha, s, i);
    var r, o, q, ns := s.db, Next(e, sha, s, i, Finish).db, s.txns[i].req, s.txns[i].ns;
    ConflictsExist(r, q.b);
    MergeColumns(e, r, q.b, q.author, q.at, if ns == [] then 0 else ns[0]);
  }

  /** A rebase finishes on an active branch that shares no changed path with main. */
  lemma FinishedRebase(e: Env, sha: Sha, s: Sys, i: nat)
    requires SysOk(e, sha, s) && Enabled(s, i, Finish) && s.txns[i].req.RebaseReq?
    ensures var r, o, q, ns := s.db, Next(e, sha, s, i, Finish).db, s.txns[i].req, s.txns[i].ns;
      && q.b in r.branches && "main" in r.branches && r.branches[q.b].status == Active
      && (forall p :: p in Net(r.files, q.b, r.branches[q.b].base, r.next) ==>
            p !in Net(r.files, "main", r.branches[q.b].base, r.next))
      && (var head := r.branches["main"].head;
          o.branches == r.branches[q.b := r.branches[q.b].(
            base := head, head := if ns == [] then head else ns[|ns| - 1])])
      && (forall n :: n in o.commits <==> n in r.commits || n in ns)
      && (forall n :: n in ns ==>
            o.commits[n].branch == q.b && o.commits[n].author == (if q.author == "" then "system" else q.author))
      && (exists n :: n in r.commits && r.commits[n].branch == q.b && n > r.branches[q.b].base) == (ns != [])
  {
    hide Inv, SysOk, Enabled, Next, RebaseOnto, Net, LogOk, HeadsOk, SourcesOf, Repeat, Decimal;
    InRange(s, i, Finish);
    SystemTables(e, sha, s);
    AtCommit(e, sha, s, i);
    var r, q, ns := s.db, s.txns[i].req, s.txns[i].ns;
    ConflictsExist(r, q.b);
    SourcesExist(r, q.b);
    RebaseColumns(e, r, q.b, q.author, q.at, ns);
  }

  /** What a transaction that holds its locks is rejected for. */
  lemma RejectedMeans(s: Sys, i: nat)
    requires Enabled(s, i, Reject)
    ensures var r, q := s.db, s.txns[i].req;
      && (q.BranchReq? || q.b in r.branches)
      && (q.BranchReq? ==> q.b in r.branches)
      && (q.CommitReq? || q.DeleteReq? ==> r.branches[q.b].status != Active)
      && (q.MergeReq? && r.branches[q.b].status == Active && !r.branches[q.b].draft ==>
            exists p :: p in Net(r.files, q.b, r.branches[q.b].base, r.next)
                        && p in Net(r.files, "main", r.branches[q.b].base, r.next))
      && (q.RebaseReq? && r.branches[q.b].status == Active ==>
            exists p :: p in Net(r.files, q.b, r.branches[q.b].base, r.next)
                        && p in Net(r.files, "main", r.branches[q.b].base, r.next))
      && (q.ReviewReq? ==>
            && q.verdict == Approved
            && exists n :: n in r.commits && r.commits[n].branch == q.b && n > r.branches[q.b].base
                           && r.commits[n].author == q.reviewer)
  {
    hide Net, Free;
    var r, q := s.db, s.txns[i].req;
    if q.MergeReq? || q.RebaseReq? {
      ConflictsExist(r, q.b);
    }
  }

  /** A new branch is made at main's head of that moment. */
  lemma FinishedBranch(e: Env, sha: Sha, s: Sys, i: nat)
    requires SysOk(e, sha, s) && Enabled(s, i, Finish) && s.txns[i].req.BranchReq?
    ensures var r, o, q := s.db, Next(e, sha, s, i, Finish).db, s.txns[i].req;
      && "main" in r.branches && q.b !in r.branches
      && (var head := r.branches["main"].head;
          o == r.(branches := r.branches[q.b := Branch(head, head, Active, q.draft, q.at)]))
      && View(o, q.b) == View(r, "main") && MainChanges(o, q.b) == map[]
  {
    hide Inv, SysOk, Enabled, Next, BranchOff, Net, LogOk, HeadsOk, StoreSpecs.Sound;
    InRange(s, i, Finish);
    SystemTables(e, sha, s);
    AtCommit(e, sha, s, i);
    NewBranchIsMain(e, s.db, s.txns[i].req.b, s.txns[i].req.draft, s.txns[i].req.at);
  }

  /** Only an active branch is abandoned. */
  lemma FinishedDelete(e: Env, sha: Sha, s: Sys, i: nat)
    requires SysOk(e, sha, s) && Enabled(s, i, Finish) && s.txns[i].req.DeleteReq?
    ensures var r, o, q := s.db, Next(e, sha, s, i, Finish).db, s.txns[i].req;
      && q.b in r.branches && r.branches[q.b].status == Active
      && o == r.(branches := r.branches[q.b := r.branches[q.b].(status := Abandoned)])
  {
    hide Inv, SysOk, Enabled, Next;
    InRange(s, i, Finish);
    AtCommit(e, sha, s, i);
  }

  /** A review is stored at the head of that moment; an approval is by nobody who wrote above the base. */
  lemma FinishedReview(e: Env, sha: Sha, s: Sys, i: nat)
    requires SysOk(e, sha, s) && Enabled(s, i, Finish) && s.txns[i].req.ReviewReq?
    ensures var r, o, q := s.db, Next(e, sha, s, i, Finish).db, s.txns[i].req;
      && q.b in r.branches
      && o == r.(reviews := r.reviews + [Review(q.id, q.b, q.reviewer, r.branches[q.b].head, q.verdict,
                                                Net(r.files, q.b, r.branches[q.b].base, r.next))])
      && (q.verdict == Approved ==> !exists n ::
            && n in r.commits && r.commits[n].branch == q.b && n > r.branches[q.b].base
            && r.commits[n].author == q.reviewer)
  {
    hide Inv, SysOk, Enabled, Next, Net;
    InRange(s, i, Finish);
    AtCommit(e, sha, s, i);
    var r, q := s.db, s.txns[i].req;
    if q.verdict == Approved {
      forall n | n in r.commits && r.commits[n].branch == q.b && n > r.branches[q.b].base
        ensures r.commits[n].author != q.reviewer
      {
        assert !StoreSpecs.CountsAsAuthor(r.commits, q.b, r.branches[q.b].base, q.reviewer, n);
      }
    }
  }
}
