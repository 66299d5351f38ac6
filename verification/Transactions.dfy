/**
 * What each transaction of internal/db/store.go writes, as a function of the committed tables and
 * of the sequence numbers it was given, and the proof that every one of them keeps the invariant.
 * A number need not be the greatest in the table: transactions on other branches may have
 * committed later numbers first.
 */
module Transactions {
  import opened Wrappers
  import opened Timestamps
  import opened Strings
  import opened CommitHashing
  import opened Tables

  // ---------------------------------------------------------------------------
  // Adding one commit
  // ---------------------------------------------------------------------------

  /** Inserts commit n on branch b with its rows and its chained hash. */
  function AddCommit(e: Env, r: Repo, b: string, author: string, message: string, at: Timestamp, n: nat,
      rows: Changes): Repo
  {
    var hash := e.digest(Record(PrevHash(r.commits, b, n), n, e.repo, b, author, message, at, Contents(r.docs, rows)));
    r.(commits := r.commits[n := Commit(b, message, author, at, Some(hash))],
       files := r.files[n := Rows(b, rows)])
  }

  /** n was allocated, is not used, and is above every commit of b. */
  ghost predicate Fresh(r: Repo, b: string, n: nat) {
    && 0 < n < r.next && n !in r.commits && n !in r.files
    && (forall m :: m in r.commits && r.commits[m].branch == b ==> m < n)
  }

  ghost predicate Resolved(docs: map<nat, Doc>, rows: Changes) {
    forall p :: p in rows && rows[p].Some? ==> rows[p].value in docs
  }

  lemma AddCommitKeepsLog(e: Env, r: Repo, b: string, author: string, message: string, at: Timestamp, n: nat,
      rows: Changes)
    requires LogOk(r) && Fresh(r, b, n) && rows != map[] && Resolved(r.docs, rows)
    ensures LogOk(AddCommit(e, r, b, author, message, at, n, rows))
  {
  }

  lemma AddCommitKeepsChain(e: Env, r: Repo, b: string, author: string, message: string, at: Timestamp, n: nat,
      rows: Changes)
    requires LogOk(r) && ChainOk(e, r) && Fresh(r, b, n)
    ensures ChainOk(e, AddCommit(e, r, b, author, message, at, n, rows))
  {
    var s := AddCommit(e, r, b, author, message, at, n, rows);
    forall m | m in s.commits && s.commits[m].hash.Some?
      ensures s.commits[m].hash.value == e.digest(RecordAt(e, s, m))
    {
      if m == n {
        PrevHashAgree(r.commits, s.commits, b, n);
      } else {
        var c := r.commits[m].branch;
        PrevHashAgree(r.commits, s.commits, c, m);
        assert RecordAt(e, s, m) == RecordAt(e, r, m);
      }
    }
  }

  /** A row group above every row of b overlays b's net change and leaves the other branches alone. */
  lemma NetAdd(files: FileTable, b: string, n: nat, rows: Changes, lo: nat, hi: nat)
    requires n !in files && lo < n <= hi
    requires forall m :: n < m <= hi ==> RowsAt(files, b, m) == map[]
    ensures Net(files[n := Rows(b, rows)], b, lo, hi) == Net(files, b, lo, hi) + rows
  {
    var g := files[n := Rows(b, rows)];
    assert forall m :: m != n ==> RowsAt(g, b, m) == RowsAt(files, b, m);
    NetBeyond(g, b, lo, n, hi);
    NetBeyond(files, b, lo, n - 1, hi) by {
      assert RowsAt(files, b, n) == map[];
    }
    NetAgree(files, g, b, lo, n - 1);
  }

  lemma NetOther(files: FileTable, b: string, n: nat, rows: Changes, c: string, lo: nat, hi: nat)
    requires n !in files && (c != b || n <= lo || hi < n)
    ensures Net(files[n := Rows(b, rows)], c, lo, hi) == Net(files, c, lo, hi)
  {
    NetAgree(files, files[n := Rows(b, rows)], c, lo, hi);
  }

  // ---------------------------------------------------------------------------
  // Commit
  // ---------------------------------------------------------------------------

  function WithHead(r: Repo, b: string, head: nat): Repo
    requires b in r.branches
  {
    r.(branches := r.branches[b := r.branches[b].(head := head)])
  }

  function WithDocs(r: Repo, added: map<nat, Doc>): Repo { r.(docs := r.docs + added) }

  lemma ContentsStable(docs: map<nat, Doc>, added: map<nat, Doc>, rows: Changes)
    requires Resolved(docs, rows) && added.Keys !! docs.Keys
    ensures Contents(docs + added, rows) == Contents(docs, rows)
  {
    forall p | p in rows ensures ContentOf(docs + added, rows[p]) == ContentOf(docs, rows[p]) {
    }
  }

  lemma WithDocsKeepsChain(e: Env, r: Repo, added: map<nat, Doc>)
    requires LogOk(r) && ChainOk(e, r) && added.Keys !! r.docs.Keys
    ensures ChainOk(e, WithDocs(r, added))
  {
    forall n | n in r.commits ensures RecordAt(e, WithDocs(r, added), n) == RecordAt(e, r, n) {
      ContentsStable(r.docs, added, RowsAt(r.files, r.commits[n].branch, n));
    }
  }

  /** The rest of the invariant only looks at branches, log keys and change sets. */
  lemma SameChanges(r: Repo, s: Repo)
    requires r.branches == s.branches && r.commits == s.commits && r.files == s.files
    requires r.reviews == s.reviews && r.next == s.next
    ensures HeadsOk(r) ==> HeadsOk(s)
    ensures MainOk(r) ==> MainOk(s)
    ensures Covered(r) ==> Covered(s)
    ensures ReviewsOk(r) ==> ReviewsOk(s)
  {
    assert forall b :: b in r.branches ==> ChangesOf(s, b) == ChangesOf(r, b);
  }

  lemma WithDocsKeeps(e: Env, r: Repo, added: map<nat, Doc>)
    requires Inv(e, r) && added.Keys !! r.docs.Keys
    ensures Inv(e, WithDocs(r, added))
  {
    WithDocsKeepsChain(e, r, added);
    SameChanges(r, WithDocs(r, added));
  }

  /** The number a writer of branch b has taken: unused and above b's head. */
  ghost predicate Above(r: Repo, b: string, n: nat)
    requires b in r.branches
  {
    r.branches[b].head < n < r.next && n !in r.commits
  }

  lemma AboveIsFresh(r: Repo, b: string, n: nat)
    requires LogOk(r) && HeadsOk(r) && b in r.branches && Above(r, b, n)
    ensures Fresh(r, b, n)
    ensures forall m :: n <= m ==> RowsAt(r.files, b, m) == map[]
  {
  }

  /** One more commit on b, with the head moved to it. */
  function Advance(e: Env, r: Repo, b: string, author: string, message: string, at: Timestamp, n: nat,
      rows: Changes): Repo
    requires b in r.branches
  {
    WithHead(AddCommit(e, r, b, author, message, at, n, rows), b, n)
  }

  lemma AdvanceFields(e: Env, r: Repo, b: string, author: string, message: string, at: Timestamp, n: nat, rows: Changes)
    requires b in r.branches
    ensures var s := Advance(e, r, b, author, message, at, n, rows);
      && s.branches == r.branches[b := r.branches[b].(head := n)]
      && s.files == r.files[n := Rows(b, rows)] && s.commits.Keys == r.commits.Keys + {n}
      && s.docs == r.docs && s.reviews == r.reviews && s.next == r.next
  {
  }

  lemma AdvanceChanges(e: Env, r: Repo, b: string, author: string, message: string, at: Timestamp, n: nat,
      rows: Changes)
    requires LogOk(r) && HeadsOk(r) && b in r.branches && Above(r, b, n)
    ensures ChangesOf(Advance(e, r, b, author, message, at, n, rows), b) == ChangesOf(r, b) + rows
    ensures forall c :: c in r.branches && c != b ==>
      ChangesOf(Advance(e, r, b, author, message, at, n, rows), c) == ChangesOf(r, c)
  {
    AboveIsFresh(r, b, n);
    NetAdd(r.files, b, n, rows, r.branches[b].base, r.next);
    assert ChangesOf(Advance(e, r, b, author, message, at, n, rows), b) == ChangesOf(r, b) + rows;
    forall c | c in r.branches && c != b
      ensures ChangesOf(Advance(e, r, b, author, message, at, n, rows), c) == ChangesOf(r, c)
    {
      NetOther(r.files, b, n, rows, c, r.branches[c].base, r.next);
    }
  }

  lemma AdvanceHeads(e: Env, r: Repo, b: string, author: string, message: string, at: Timestamp, n: nat, rows: Changes)
    requires HeadsOk(r) && MainOk(r) && b in r.branches && Above(r, b, n)
    ensures HeadsOk(Advance(e, r, b, author, message, at, n, rows))
    ensures MainOk(Advance(e, r, b, author, message, at, n, rows))
  {
  }

  lemma AdvanceCovered(e: Env, r: Repo, b: string, author: string, message: string, at: Timestamp, n: nat,
      rows: Changes)
    requires LogOk(r) && HeadsOk(r) && Covered(r) && ReviewsOk(r) && b in r.branches && Above(r, b, n)
    ensures Covered(Advance(e, r, b, author, message, at, n, rows))
    ensures ReviewsOk(Advance(e, r, b, author, message, at, n, rows))
  {
    hide Advance, ChangesOf, LogOk;
    AdvanceChanges(e, r, b, author, message, at, n, rows);
    AdvanceFields(e, r, b, author, message, at, n, rows);
    var s := Advance(e, r, b, author, message, at, n, rows);
    forall m | m in s.files && s.files[m].branch in s.branches
      ensures s.files[m].changes.Keys <= ChangesOf(s, s.files[m].branch).Keys
    {
      if m != n {
        assert r.files[m].changes.Keys <= ChangesOf(r, r.files[m].branch).Keys;
      }
    }
  }

  lemma SameLogSameChain(e: Env, r: Repo, s: Repo)
    requires r.commits == s.commits && r.files == s.files && r.docs == s.docs && r.next <= s.next
    ensures LogOk(r) ==> LogOk(s)
    ensures ChainOk(e, r) ==> ChainOk(e, s)
  {
    assert forall n :: n in r.commits ==> RecordAt(e, r, n) == RecordAt(e, s, n);
  }

  /** Advancing a branch keeps the invariant and overlays the branch's change set with the new rows. */
  lemma AdvanceKeeps(e: Env, r: Repo, b: string, author: string, message: string, at: Timestamp, n: nat, rows: Changes)
    requires Inv(e, r) && b in r.branches && Above(r, b, n)
    requires rows != map[] && Resolved(r.docs, rows)
    ensures Inv(e, Advance(e, r, b, author, message, at, n, rows))
    ensures ChangesOf(Advance(e, r, b, author, message, at, n, rows), b) == ChangesOf(r, b) + rows
    ensures forall c :: c in r.branches && c != b ==>
      ChangesOf(Advance(e, r, b, author, message, at, n, rows), c) == ChangesOf(r, c)
  {
    AboveIsFresh(r, b, n);
    AddCommitKeepsLog(e, r, b, author, message, at, n, rows);
    AddCommitKeepsChain(e, r, b, author, message, at, n, rows);
    SameLogSameChain(e, AddCommit(e, r, b, author, message, at, n, rows),
                     Advance(e, r, b, author, message, at, n, rows));
    AdvanceChanges(e, r, b, author, message, at, n, rows);
    AdvanceHeads(e, r, b, author, message, at, n, rows);
    AdvanceCovered(e, r, b, author, message, at, n, rows);
  }

  /**
   * The commit transaction: the resolved versions become the rows of one new commit. The first
   * version of a path is its document's, so every row has its document.
   */
  function CommitTo(e: Env, r: Repo, b: string, author: string, message: string, at: Timestamp, n: nat, rows: Changes,
      added: map<nat, Doc>): Repo
    requires b in r.branches
  {
    Advance(e, WithDocs(r, added), b, author, message, at, n, rows)
  }

  lemma CommitKeeps(e: Env, r: Repo, b: string, author: string, message: string, at: Timestamp, n: nat, rows: Changes,
      added: map<nat, Doc>)
    requires Inv(e, r) && b in r.branches && Above(r, b, n)
    requires added.Keys !! r.docs.Keys && rows != map[] && Resolved(r.docs + added, rows)
    ensures Inv(e, CommitTo(e, r, b, author, message, at, n, rows, added))
    ensures ChangesOf(CommitTo(e, r, b, author, message, at, n, rows, added), b) == ChangesOf(r, b) + rows
  {
    WithDocsKeeps(e, r, added);
    AdvanceKeeps(e, WithDocs(r, added), b, author, message, at, n, rows);
    assert ChangesOf(WithDocs(r, added), b) == ChangesOf(r, b);
  }

  // ---------------------------------------------------------------------------
  // CreateBranch, DeleteBranch, CreateReview
  // ---------------------------------------------------------------------------

  function BranchOff(r: Repo, name: string, draft: bool, at: Timestamp): Repo
    requires MAIN in r.branches
  {
    var head := r.branches[MAIN].head;
    r.(branches := r.branches[name := Branch(head, head, Active, draft, at)])
  }

  lemma BranchOffChanges(r: Repo, name: string, draft: bool, at: Timestamp)
    requires LogOk(r) && HeadsOk(r) && MAIN in r.branches && name !in r.branches
    ensures forall b :: b in r.branches ==> ChangesOf(BranchOff(r, name, draft, at), b) == ChangesOf(r, b)
    ensures ChangesOf(BranchOff(r, name, draft, at), name) == map[]
  {
    var head := r.branches[MAIN].head;
    assert forall n :: RowsAt(r.files, name, n) == map[];
    NetBeyond(r.files, name, head, head, r.next);
  }

  lemma BranchOffHeads(r: Repo, name: string, draft: bool, at: Timestamp)
    requires HeadsOk(r) && MainOk(r) && name !in r.branches
    ensures HeadsOk(BranchOff(r, name, draft, at)) && MainOk(BranchOff(r, name, draft, at))
  {
  }

  lemma BranchOffKeeps(e: Env, r: Repo, name: string, draft: bool, at: Timestamp)
    requires Inv(e, r) && name !in r.branches
    ensures Inv(e, BranchOff(r, name, draft, at))
  {
    var s := BranchOff(r, name, draft, at);
    SameLogSameChain(e, r, s);
    BranchOffHeads(r, name, draft, at);
    BranchOffChanges(r, name, draft, at);
    assert Covered(s) by {
      assert forall n :: n in s.files ==> s.files[n].branch in r.branches;
    }
    assert ReviewsOk(s);
  }

  /** Status and draft flags do not matter to the invariant, except that main stays active. */
  lemma SameHeads(r: Repo, s: Repo)
    requires r.commits == s.commits && r.files == s.files && r.next == s.next
    requires r.branches.Keys == s.branches.Keys
    requires forall b :: b in r.branches ==>
      r.branches[b].head == s.branches[b].head && r.branches[b].base == s.branches[b].base
    ensures HeadsOk(r) ==> HeadsOk(s)
    ensures Covered(r) ==> Covered(s)
    ensures ReviewsOk(r) && r.reviews == s.reviews ==> ReviewsOk(s)
    ensures forall b :: b in r.branches ==> ChangesOf(s, b) == ChangesOf(r, b)
  {
  }

  function WithStatus(r: Repo, b: string, status: Status): Repo
    requires b in r.branches
  {
    r.(branches := r.branches[b := r.branches[b].(status := status)])
  }

  lemma WithStatusKeeps(e: Env, r: Repo, b: string, status: Status)
    requires Inv(e, r) && b in r.branches && b != MAIN
    ensures Inv(e, WithStatus(r, b, status))
  {
    SameLogSameChain(e, r, WithStatus(r, b, status));
    SameHeads(r, WithStatus(r, b, status));
  }

  function AddReview(r: Repo, b: string, id: nat, reviewer: string, verdict: Verdict): Repo
    requires b in r.branches
  {
    r.(reviews := r.reviews + [Review(id, b, reviewer, r.branches[b].head, verdict, ChangesOf(r, b))])
  }

  lemma AddReviewKeeps(e: Env, r: Repo, b: string, id: nat, reviewer: string, verdict: Verdict)
    requires Inv(e, r) && b in r.branches
    ensures Inv(e, AddReview(r, b, id, reviewer, verdict))
  {
    SameLogSameChain(e, r, AddReview(r, b, id, reviewer, verdict));
    SameHeads(r, AddReview(r, b, id, reviewer, verdict));
  }

  // ---------------------------------------------------------------------------
  // Merge
  // ---------------------------------------------------------------------------

  /** What main changed since the branch's base. */
  function MainChanges(r: Repo, b: string): Changes
    requires b in r.branches
  {
    Net(r.files, MAIN, r.branches[b].base, r.next)
  }

  /** The paths changed on both sides since the base. */
  function ConflictPaths(r: Repo, b: string): set<string>
    requires b in r.branches
  {
    ChangesOf(r, b).Keys * MainChanges(r, b).Keys
  }

  function MergeMessage(b: string): string { "merge branch '" + b + "'" }

  /** The writes of a conflict-free merge; n is not used when the branch changed nothing. */
  function MergeInto(e: Env, r: Repo, b: string, author: string, at: Timestamp, n: nat): Repo
    requires b in r.branches && MAIN in r.branches
  {
    if ChangesOf(r, b) == map[] then WithStatus(r, b, Status.Merged)
    else WithStatus(Advance(e, r, MAIN, author, MergeMessage(b), at, n, ChangesOf(r, b)), b, Status.Merged)
  }

  lemma ChangesResolved(r: Repo, b: string)
    requires LogOk(r) && b in r.branches
    ensures Resolved(r.docs, ChangesOf(r, b))
  {
    forall p | p in ChangesOf(r, b) && ChangesOf(r, b)[p].Some? ensures ChangesOf(r, b)[p].value in r.docs {
      var n := NetRow(r.files, b, r.branches[b].base, r.next, p);
    }
  }

  lemma MergeKeeps(e: Env, r: Repo, b: string, author: string, at: Timestamp, n: nat)
    requires Inv(e, r) && b in r.branches && b != MAIN && Above(r, MAIN, n)
    ensures Inv(e, MergeInto(e, r, b, author, at, n))
  {
    if ChangesOf(r, b) == map[] {
      WithStatusKeeps(e, r, b, Status.Merged);
    } else {
      ChangesResolved(r, b);
      AdvanceKeeps(e, r, MAIN, author, MergeMessage(b), at, n, ChangesOf(r, b));
      WithStatusKeeps(e, Advance(e, r, MAIN, author, MergeMessage(b), at, n, ChangesOf(r, b)), b, Status.Merged);
    }
  }

  // ---------------------------------------------------------------------------
  // Rebase
  // ---------------------------------------------------------------------------

  /** branchCommitGroups: the sequences of b's row groups above lo, ascending. */
  function GroupSeqs(files: FileTable, b: string, lo: nat, hi: nat): seq<nat>
    decreases hi
  {
    if hi <= lo then []
    else if RowsAt(files, b, hi) == map[] then GroupSeqs(files, b, lo, hi - 1)
    else GroupSeqs(files, b, lo, hi - 1) + [hi]
  }

  function ReplayMessage(n: nat): string { "rebase: replay sequence " + Decimal(n) }

  function ReplayAuthor(author: string): string { if author == "" then "system" else author }

  /**
   * The tables after the first k groups were replayed as commits ns[0], ..., ns[k-1]. The head
   * follows each replay here; the transaction writes it once, at the end.
   */
  function Replayed(e: Env, r: Repo, b: string, author: string, src: seq<nat>, ats: seq<Timestamp>, ns: seq<nat>,
      k: nat): (s: Repo)
    requires b in r.branches && k <= |src| == |ns| == |ats|
    ensures b in s.branches
  {
    if k == 0 then r
    else Advance(e, Replayed(e, r, b, author, src, ats, ns, k - 1), b, ReplayAuthor(author),
                 ReplayMessage(src[k - 1]), ats[k - 1], ns[k - 1], RowsAt(r.files, b, src[k - 1]))
  }

  /** now() is the same for every insert of a transaction. */
  function Repeat(at: Timestamp, k: nat): (ats: seq<Timestamp>)
    ensures |ats| == k && (forall i :: 0 <= i < k ==> ats[i] == at)
  {
    seq(k, i => at)
  }

  function SourcesOf(r: Repo, b: string): seq<nat>
    requires b in r.branches
  {
    GroupSeqs(r.files, b, r.branches[b].base, r.next)
  }

  function Rebased(r: Repo, b: string, base: nat, head: nat): Repo
    requires b in r.branches
  {
    r.(branches := r.branches[b := r.branches[b].(base := base, head := head)])
  }

  /** The writes of a conflict-free rebase, ns being the numbers given to the replays. */
  function RebaseOnto(e: Env, r: Repo, b: string, author: string, ats: seq<Timestamp>, ns: seq<nat>): Repo
    requires b in r.branches && MAIN in r.branches && |SourcesOf(r, b)| == |ns| == |ats|
  {
    var mainHead := r.branches[MAIN].head;
    Rebased(Replayed(e, r, b, author, SourcesOf(r, b), ats, ns, |ns|), b, mainHead,
            if ns == [] then mainHead else ns[|ns| - 1])
  }

  /** The numbers a rebase has taken: ascending, unused, above the heads of main and of the branch. */
  ghost predicate AllAbove(r: Repo, b: string, ns: seq<nat>)
    requires b in r.branches && MAIN in r.branches
  {
    && (forall i, j :: 0 <= i < j < |ns| ==> ns[i] < ns[j])
    && (forall i :: 0 <= i < |ns| ==> Above(r, b, ns[i]) && r.branches[MAIN].head < ns[i])
  }

  /** The first k groups overlaid in order. */
  function Fold(files: FileTable, b: string, src: seq<nat>, k: nat): Changes
    requires k <= |src|
  {
    if k == 0 then map[] else Fold(files, b, src, k - 1) + RowsAt(files, b, src[k - 1])
  }

  lemma {:induction false} FoldPrefix(files: FileTable, b: string, src: seq<nat>, more: seq<nat>, k: nat)
    requires k <= |src|
    ensures Fold(files, b, src + more, k) == Fold(files, b, src, k)
  {
    if k > 0 {
      FoldPrefix(files, b, src, more, k - 1);
    }
  }

  lemma {:induction false} GroupsFoldToNet(files: FileTable, b: string, lo: nat, hi: nat)
    ensures var src := GroupSeqs(files, b, lo, hi); Fold(files, b, src, |src|) == Net(files, b, lo, hi)
    decreases hi
  {
    hide RowsAt;
    if lo < hi {
      GroupsFoldToNet(files, b, lo, hi - 1);
      var src := GroupSeqs(files, b, lo, hi - 1);
      FoldPrefix(files, b, src, [hi], |src|);
    }
  }

  ghost predicate GroupsOf(files: FileTable, b: string, lo: nat, hi: nat, src: seq<nat>) {
    && (forall i :: 0 <= i < |src| ==> lo < src[i] <= hi && RowsAt(files, b, src[i]) != map[])
    && (forall i, j :: 0 <= i < j < |src| ==> src[i] < src[j])
  }

  lemma {:induction false} GroupSeqsRange(files: FileTable, b: string, lo: nat, hi: nat)
    ensures GroupsOf(files, b, lo, hi, GroupSeqs(files, b, lo, hi))
    decreases hi
  {
    if lo < hi {
      GroupSeqsRange(files, b, lo, hi - 1);
      var rest := GroupSeqs(files, b, lo, hi - 1);
      assert GroupSeqs(files, b, lo, hi) == if RowsAt(files, b, hi) == map[] then rest else rest + [hi];
    }
  }

  /** Every row group above lo is replayed. */
  lemma {:induction false} GroupSeqsAll(files: FileTable, b: string, lo: nat, hi: nat, n: nat) returns (i: nat)
    requires lo < n <= hi && RowsAt(files, b, n) != map[]
    ensures i < |GroupSeqs(files, b, lo, hi)| && GroupSeqs(files, b, lo, hi)[i] == n
    decreases hi
  {
    if n == hi {
      i := |GroupSeqs(files, b, lo, hi - 1)|;
    } else {
      i := GroupSeqsAll(files, b, lo, hi - 1, n);
    }
  }

  /** What k replays leave. */
  ghost predicate ReplayState(e: Env, r: Repo, b: string, src: seq<nat>, ns: seq<nat>, k: nat, s: Repo)
    requires b in r.branches && k <= |src| == |ns|
  {
    && s.branches == r.branches[b := r.branches[b].(head := if k == 0 then r.branches[b].head else ns[k - 1])]
    && s.docs == r.docs && s.reviews == r.reviews && s.next == r.next
    && (forall j :: k <= j < |ns| ==> ns[j] !in s.commits)
    && Inv(e, s)
    && ChangesOf(s, b) == ChangesOf(r, b) + Fold(r.files, b, src, k)
    && (forall c :: c in r.branches && c != b ==> ChangesOf(s, c) == ChangesOf(r, c))
  }

  lemma RowsResolved(r: Repo, b: string, n: nat)
    requires LogOk(r)
    ensures Resolved(r.docs, RowsAt(r.files, b, n))
  {
  }

  lemma NextIsAbove(r: Repo, b: string, ns: seq<nat>, k: nat, s: Repo)
    requires b in r.branches && MAIN in r.branches && k < |ns| && AllAbove(r, b, ns)
    requires s.branches == r.branches[b := r.branches[b].(head := if k == 0 then r.branches[b].head else ns[k - 1])]
    requires s.next == r.next && ns[k] !in s.commits
    ensures Above(s, b, ns[k])
    ensures forall j :: k < j < |ns| ==> ns[j] != ns[k]
  {
    assert Above(r, b, ns[k]);
  }

  lemma ReplayStep(e: Env, r: Repo, b: string, author: string, message: string, at: Timestamp, src: seq<nat>,
      ns: seq<nat>, k: nat, s: Repo)
    requires Inv(e, r) && b in r.branches && MAIN in r.branches
    requires k < |src| == |ns| && AllAbove(r, b, ns)
    requires RowsAt(r.files, b, src[k]) != map[]
    requires ReplayState(e, r, b, src, ns, k, s)
    ensures ReplayState(e, r, b, src, ns, k + 1,
                        Advance(e, s, b, author, message, at, ns[k], RowsAt(r.files, b, src[k])))
  {
    hide ChainOk, Covered, ReviewsOk, LogOk, HeadsOk, MainOk, Net, Advance, RowsAt, ChangesOf, AllAbove, Above;
    AdvanceFields(e, s, b, author, message, at, ns[k], RowsAt(r.files, b, src[k]));
    var rows := RowsAt(r.files, b, src[k]);
    NextIsAbove(r, b, ns, k, s);
    RowsResolved(r, b, src[k]);
    AdvanceKeeps(e, s, b, author, message, at, ns[k], rows);
    OverlayAssoc(ChangesOf(r, b), Fold(r.files, b, src, k), rows);
  }

  lemma ReplayStart(e: Env, r: Repo, b: string, src: seq<nat>, ns: seq<nat>)
    requires Inv(e, r) && MAIN in r.branches && b in r.branches && |src| == |ns| && AllAbove(r, b, ns)
    ensures ReplayState(e, r, b, src, ns, 0, r)
  {
    hide Inv;
    assert forall j :: 0 <= j < |ns| ==> Above(r, b, ns[j]);
  }

  lemma {:induction false} ReplayedKeeps(e: Env, r: Repo, b: string, author: string, src: seq<nat>,
      ats: seq<Timestamp>, ns: seq<nat>, k: nat)
    requires Inv(e, r) && MAIN in r.branches && b in r.branches
    requires k <= |src| == |ns| == |ats| && AllAbove(r, b, ns)
    requires forall i :: 0 <= i < |src| ==> RowsAt(r.files, b, src[i]) != map[]
    ensures ReplayState(e, r, b, src, ns, k, Replayed(e, r, b, author, src, ats, ns, k))
  {
    hide Inv, Advance, Net, RowsAt, ReplayState, AllAbove, ReplayAuthor, ReplayMessage;
    if k == 0 {
      ReplayStart(e, r, b, src, ns);
    } else {
      ReplayedKeeps(e, r, b, author, src, ats, ns, k - 1);
      ReplayStep(e, r, b, ReplayAuthor(author), ReplayMessage(src[k - 1]), ats[k - 1], src, ns, k - 1,
                 Replayed(e, r, b, author, src, ats, ns, k - 1));
    }
  }

  lemma FoldNothing(files: FileTable, b: string, src: seq<nat>)
    ensures Fold(files, b, src, 0) == map[]
  {
  }

  lemma NetAfterReplay(e: Env, r: Repo, b: string, src: seq<nat>, ns: seq<nat>, k: nat, lo: nat, s: Repo)
    requires b in r.branches && MAIN in r.branches && k < |src| == |ns| && AllAbove(r, b, ns)
    requires ReplayState(e, r, b, src, ns, k, s) && lo <= r.branches[MAIN].head
    requires Net(s.files, b, lo, r.next) == Net(r.files, b, lo, r.next) + Fold(r.files, b, src, k)
    ensures Net(s.files[ns[k] := Rows(b, RowsAt(r.files, b, src[k]))], b, lo, r.next)
         == Net(r.files, b, lo, r.next) + Fold(r.files, b, src, k + 1)
  {
    assert Above(r, b, ns[k]);
    AboveIsFresh(s, b, ns[k]);
    NetAdd(s.files, b, ns[k], RowsAt(r.files, b, src[k]), lo, r.next);
    OverlayAssoc(Net(r.files, b, lo, r.next), Fold(r.files, b, src, k), RowsAt(r.files, b, src[k]));
  }

  /** The replays above the new base, with the old rows above it, amount to the old change set. */
  lemma {:induction false} ReplayedNet(e: Env, r: Repo, b: string, author: string, src: seq<nat>, ats: seq<Timestamp>,
      ns: seq<nat>, k: nat, lo: nat)
    requires Inv(e, r) && MAIN in r.branches && b in r.branches
    requires k <= |src| == |ns| == |ats| && AllAbove(r, b, ns)
    requires forall i :: 0 <= i < |src| ==> RowsAt(r.files, b, src[i]) != map[]
    requires lo <= r.branches[MAIN].head
    ensures Net(Replayed(e, r, b, author, src, ats, ns, k).files, b, lo, r.next)
         == Net(r.files, b, lo, r.next) + Fold(r.files, b, src, k)
  {
    hide Inv, ReplayState, Advance, Net, RowsAt, AllAbove, Fold;
    if k > 0 {
      ReplayedNet(e, r, b, author, src, ats, ns, k - 1, lo);
      ReplayedKeeps(e, r, b, author, src, ats, ns, k - 1);
      var s := Replayed(e, r, b, author, src, ats, ns, k - 1);
      AdvanceFields(e, s, b, ReplayAuthor(author), ReplayMessage(src[k - 1]), ats[k - 1], ns[k - 1],
                    RowsAt(r.files, b, src[k - 1]));
      NetAfterReplay(e, r, b, src, ns, k - 1, lo, s);
    } else {
      FoldNothing(r.files, b, src);
    }
  }

  lemma SourcesNonempty(r: Repo, b: string)
    requires b in r.branches
    ensures var src := SourcesOf(r, b); forall i :: 0 <= i < |src| ==> RowsAt(r.files, b, src[i]) != map[]
    ensures Fold(r.files, b, SourcesOf(r, b), |SourcesOf(r, b)|) == ChangesOf(r, b)
    ensures SourcesOf(r, b) == [] <==> ChangesOf(r, b) == map[]
  {
    var base := r.branches[b].base;
    GroupSeqsRange(r.files, b, base, r.next);
    GroupsFoldToNet(r.files, b, base, r.next);
    if SourcesOf(r, b) != [] {
      var n := SourcesOf(r, b)[0];
      var p :| p in RowsAt(r.files, b, n);
      NetHas(r.files, b, base, r.next, n, p);
    }
  }

  /** A rebase keeps the branch's net change, and every other branch's. */
  lemma RebaseKeepsChanges(e: Env, r: Repo, b: string, author: string, ats: seq<Timestamp>, ns: seq<nat>)
    requires Inv(e, r) && b in r.branches && b != MAIN
    requires |SourcesOf(r, b)| == |ns| == |ats| && AllAbove(r, b, ns)
    ensures var s := RebaseOnto(e, r, b, author, ats, ns);
      && s.branches.Keys == r.branches.Keys && ChangesOf(s, b) == ChangesOf(r, b)
      && (forall c :: c in r.branches && c != b ==> ChangesOf(s, c) == ChangesOf(r, c))
  {
    hide ChainOk, Covered, ReviewsOk, LogOk, Advance, Net, RowsAt, Fold, GroupSeqs, Replayed;
    var src, base, mainHead := SourcesOf(r, b), r.branches[b].base, r.branches[MAIN].head;
    SourcesNonempty(r, b);
    ReplayedKeeps(e, r, b, author, src, ats, ns, |ns|);
    ReplayedNet(e, r, b, author, src, ats, ns, |ns|, mainHead);
    NetSplit(r.files, b, base, mainHead, r.next);
    var kept := Net(r.files, b, mainHead, r.next);
    assert kept.Keys <= ChangesOf(r, b).Keys;
    assert kept + ChangesOf(r, b) == ChangesOf(r, b);
  }

  lemma RebaseHeads(r: Repo, b: string, ns: seq<nat>, s: Repo)
    requires HeadsOk(r) && MainOk(r) && b in r.branches && b != MAIN && AllAbove(r, b, ns)
    requires HeadsOk(s) && MainOk(s) && s.next == r.next
    requires s.branches
          == r.branches[b := r.branches[b].(head := if ns == [] then r.branches[b].head else ns[|ns| - 1])]
    requires ns == [] ==> forall n :: n in s.commits ==> s.commits[n].branch != b
    ensures var mainHead := r.branches[MAIN].head;
      var t := Rebased(s, b, mainHead, if ns == [] then mainHead else ns[|ns| - 1]);
      HeadsOk(t) && MainOk(t)
  {
    if ns != [] {
      assert Above(r, b, ns[|ns| - 1]);
    }
  }

  lemma RebaseReviews(r: Repo, b: string, ns: seq<nat>, s: Repo, t: Repo)
    requires HeadsOk(r) && MainOk(r) && b in r.branches && b != MAIN
    requires s.branches
          == r.branches[b := r.branches[b].(head := if ns == [] then r.branches[b].head else ns[|ns| - 1])]
    requires t == Rebased(s, b, r.branches[MAIN].head, if ns == [] then r.branches[MAIN].head else ns[|ns| - 1])
    requires Covered(s) && ReviewsOk(s)
    requires ns == [] ==> r.branches[b].head == r.branches[b].base
    requires forall c :: c in s.branches ==> ChangesOf(t, c) == ChangesOf(s, c)
    ensures Covered(t) && ReviewsOk(t)
  {
  }

  lemma EmptyReplay(e: Env, r: Repo, b: string, author: string, ats: seq<Timestamp>)
    requires b in r.branches && ats == []
    ensures Replayed(e, r, b, author, [], ats, [], 0) == r
  {
  }

  /** A branch without net change has no commits and still sits at its base. */
  lemma NoRowsNoCommits(r: Repo, b: string)
    requires LogOk(r) && HeadsOk(r) && Covered(r) && b in r.branches && ChangesOf(r, b) == map[]
    ensures forall n :: n in r.commits ==> r.commits[n].branch != b
    ensures r.branches[b].head == r.branches[b].base
  {
    assert forall n :: n in r.files && r.files[n].branch == b ==> r.files[n].changes.Keys <= ChangesOf(r, b).Keys;
  }

  /** Moving base and head after the replays keeps what the replays kept. */
  lemma RebasedKeeps(e: Env, r: Repo, b: string, ns: seq<nat>, s: Repo)
    requires Inv(e, r) && b in r.branches && b != MAIN && AllAbove(r, b, ns) && Inv(e, s) && s.next == r.next
    requires s.branches
          == r.branches[b := r.branches[b].(head := if ns == [] then r.branches[b].head else ns[|ns| - 1])]
    requires ns == [] ==>
      r.branches[b].head == r.branches[b].base && forall n :: n in s.commits ==> s.commits[n].branch != b
    ensures var t := Rebased(s, b, r.branches[MAIN].head, if ns == [] then r.branches[MAIN].head else ns[|ns| - 1]);
      (forall c :: c in s.branches ==> ChangesOf(t, c) == ChangesOf(s, c)) ==> Inv(e, t)
  {
    hide LogOk, ChainOk, HeadsOk, Covered, ReviewsOk, Net, AllAbove;
    var t := Rebased(s, b, r.branches[MAIN].head, if ns == [] then r.branches[MAIN].head else ns[|ns| - 1]);
    SameLogSameChain(e, s, t);
    RebaseHeads(r, b, ns, s);
    if forall c :: c in s.branches ==> ChangesOf(t, c) == ChangesOf(s, c) {
      RebaseReviews(r, b, ns, s, t);
    }
  }

  lemma RebaseKeeps(e: Env, r: Repo, b: string, author: string, ats: seq<Timestamp>, ns: seq<nat>)
    requires Inv(e, r) && b in r.branches && b != MAIN
    requires |SourcesOf(r, b)| == |ns| == |ats| && AllAbove(r, b, ns)
    ensures Inv(e, RebaseOnto(e, r, b, author, ats, ns))
  {
    hide LogOk, ChainOk, HeadsOk, Covered, ReviewsOk, Net, RowsAt, Fold, GroupSeqs, Replayed, Advance, AllAbove;
    var s := Replayed(e, r, b, author, SourcesOf(r, b), ats, ns, |ns|);
    SourcesNonempty(r, b);
    ReplayedKeeps(e, r, b, author, SourcesOf(r, b), ats, ns, |ns|);
    RebaseKeepsChanges(e, r, b, author, ats, ns);
    assert ChangesOf(s, b) == ChangesOf(r, b) + ChangesOf(r, b);
    if ns == [] {
      NoRowsNoCommits(r, b);
      assert s == r by { EmptyReplay(e, r, b, author, ats); }
    }
    RebasedKeeps(e, r, b, ns, s);
  }
}
