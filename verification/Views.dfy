/**
 * What a branch means: the views the tables determine, what the reader of internal/store returns,
 * and what merge and rebase do to them.
 */
module Views {
  import opened Wrappers
  import opened Timestamps
  import opened CommitHashing
  import opened Tables
  import opened Transactions

  /** The view fixed by a base and a head: main up to the base, overlaid with the branch's rows above it. */
  function ViewAt(r: Repo, b: string, base: nat, head: nat): Changes {
    Net(r.files, MAIN, 0, base) + Net(r.files, b, base, head)
  }

  function View(r: Repo, b: string): Changes
    requires b in r.branches
  {
    ViewAt(r, b, r.branches[b].base, r.next)
  }

  // ---------------------------------------------------------------------------
  // The reader
  // ---------------------------------------------------------------------------

  /** The rows MaterializeTree and GetFile look at for branch b read at sequence `at`. */
  ghost predicate Eligible(r: Repo, b: string, at: nat, n: nat, p: string)
    requires b in r.branches
  {
    n <= at && (RowOn(r.files, b, n, p) || (n <= r.branches[b].base && RowOn(r.files, MAIN, n, p)))
  }

  lemma RowIsCovered(r: Repo, b: string, n: nat, p: string)
    requires Covered(r) && b in r.branches && RowOn(r.files, b, n, p)
    ensures p in ChangesOf(r, b)
  {
    assert r.files[n].changes.Keys <= ChangesOf(r, b).Keys;
  }

  lemma EligibleInView(r: Repo, b: string, at: nat, n: nat, p: string)
    requires LogOk(r) && Covered(r) && b in r.branches && Eligible(r, b, at, n, p)
    ensures p in View(r, b)
  {
    hide Net;
    if RowOn(r.files, b, n, p) {
      RowIsCovered(r, b, n, p);
    } else {
      NetHas(r.files, MAIN, 0, r.branches[b].base, n, p);
    }
  }

  lemma ReadsView(r: Repo, b: string, at: nat, p: string) returns (n: nat)
    requires LogOk(r) && HeadsOk(r) && MainOk(r) && Covered(r)
    requires b in r.branches && r.branches[b].head <= at && p in View(r, b)
    ensures Eligible(r, b, at, n, p) && n in r.files && p in r.files[n].changes
    ensures r.files[n].changes[p] == View(r, b)[p]
    ensures forall m :: n < m ==> !Eligible(r, b, at, m, p)
  {
    hide Net;
    var base := r.branches[b].base;
    forall m | RowOn(r.files, b, m, p) ensures p in ChangesOf(r, b) {
      RowIsCovered(r, b, m, p);
    }
    if p in ChangesOf(r, b) {
      n := NetRow(r.files, b, base, r.next, p);
    } else {
      n := NetRow(r.files, MAIN, 0, base, p);
    }
  }

  /**
   * The reader gives a path the version of its last row at or below `at`, on the branch or on main
   * up to the base. At or after the head that is exactly the view.
   */
  lemma ReaderSeesView(r: Repo, b: string, at: nat, p: string, v: Option<nat>)
    requires LogOk(r) && HeadsOk(r) && MainOk(r) && Covered(r)
    requires b in r.branches && r.branches[b].head <= at
    ensures p in View(r, b) && View(r, b)[p] == v <==>
      exists n ::
        && n in r.files && p in r.files[n].changes && r.files[n].changes[p] == v
        && n <= at && (r.files[n].branch == b || (r.files[n].branch == MAIN && n <= r.branches[b].base))
        && (forall m :: n < m <= at && m in r.files && p in r.files[m].changes ==>
              r.files[m].branch != b && (r.files[m].branch == MAIN ==> r.branches[b].base < m))
  {
    hide Net, View, LogOk, HeadsOk, MainOk, Covered;
    if n :|
      && n in r.files && p in r.files[n].changes && r.files[n].changes[p] == v
      && n <= at && (r.files[n].branch == b || (r.files[n].branch == MAIN && n <= r.branches[b].base))
      && (forall m :: n < m <= at && m in r.files && p in r.files[m].changes ==>
            r.files[m].branch != b && (r.files[m].branch == MAIN ==> r.branches[b].base < m))
    {
      assert Eligible(r, b, at, n, p);
      EligibleInView(r, b, at, n, p);
      var k := ReadsView(r, b, at, p);
    }
    if p in View(r, b) {
      var n := ReadsView(r, b, at, p);
      assert forall m :: n < m <= at && m in r.files && p in r.files[m].changes ==> !Eligible(r, b, at, m, p);
    }
  }

  // ---------------------------------------------------------------------------
  // Merge
  // ---------------------------------------------------------------------------

  lemma NetNothing(files: FileTable, b: string)
    ensures Net(files, b, 0, 0) == map[]
  {
  }

  lemma MainIsBasePlusMainChanges(r: Repo, b: string)
    requires HeadsOk(r) && MainOk(r) && b in r.branches
    ensures View(r, MAIN) == Net(r.files, MAIN, 0, r.branches[b].base) + MainChanges(r, b)
    ensures View(r, MAIN) == ChangesOf(r, MAIN)
  {
    hide Net;
    NetSplit(r.files, MAIN, 0, r.branches[b].base, r.next);
    NetSplit(r.files, MAIN, 0, 0, r.next);
    NetNothing(r.files, MAIN);
  }

  lemma DisjointOverlay(root: Changes, ours: Changes, theirs: Changes)
    requires ours.Keys * theirs.Keys == {}
    ensures (root + theirs) + ours == (root + ours) + theirs
  {
    assert forall p :: p in ours.Keys && p in theirs.Keys ==> p in ours.Keys * theirs.Keys;
  }

  lemma WithStatusViews(r: Repo, b: string, status: Status)
    requires b in r.branches
    ensures var s := WithStatus(r, b, status);
      && s.branches.Keys == r.branches.Keys && s.branches[b].status == status
      && (forall c :: c in r.branches ==> ChangesOf(s, c) == ChangesOf(r, c) && View(s, c) == View(r, c))
  {
  }

  /** Advancing main does not show through the bases of other branches. */
  lemma AdvanceMainViews(e: Env, r: Repo, author: string, message: string, at: Timestamp, n: nat, rows: Changes)
    requires LogOk(r) && HeadsOk(r) && MainOk(r) && Above(r, MAIN, n)
    ensures var s := Advance(e, r, MAIN, author, message, at, n, rows);
      && s.branches.Keys == r.branches.Keys
      && ChangesOf(s, MAIN) == ChangesOf(r, MAIN) + rows
      && (forall c :: c in r.branches && c != MAIN ==> View(s, c) == View(r, c))
  {
    hide Net, LogOk;
    AdvanceChanges(e, r, MAIN, author, message, at, n, rows);
    forall c | c in r.branches && c != MAIN
      ensures View(Advance(e, r, MAIN, author, message, at, n, rows), c) == View(r, c)
    {
      AboveIsFresh(r, MAIN, n);
      NetOther(r.files, MAIN, n, rows, MAIN, 0, r.branches[c].base);
      NetOther(r.files, MAIN, n, rows, c, r.branches[c].base, r.next);
    }
  }

  lemma MergeChanges(e: Env, r: Repo, b: string, author: string, at: Timestamp, n: nat)
    requires Inv(e, r) && b in r.branches && b != MAIN && Above(r, MAIN, n)
    ensures var s := MergeInto(e, r, b, author, at, n);
      && s.branches.Keys == r.branches.Keys && s.branches[b].status == Status.Merged
      && ChangesOf(s, MAIN) == ChangesOf(r, MAIN) + ChangesOf(r, b)
      && (forall c :: c in r.branches && c != MAIN ==> View(s, c) == View(r, c))
  {
    hide LogOk, ChainOk, HeadsOk, Covered, ReviewsOk, Net, Advance, WithStatus, View, ChangesOf, Above, MergeMessage;
    var ours := ChangesOf(r, b);
    if ours == map[] {
      WithStatusViews(r, b, Status.Merged);
      assert ChangesOf(r, MAIN) + map[] == ChangesOf(r, MAIN);
    } else {
      var t := Advance(e, r, MAIN, author, MergeMessage(b), at, n, ours);
      AdvanceMainViews(e, r, author, MergeMessage(b), at, n, ours);
      WithStatusViews(t, b, Status.Merged);
    }
  }

  /**
   * A conflict-free merge is a three-way merge: main becomes main with the branch's changes on
   * top, which is the branch's view with main's changes on top. Other branches keep their views.
   */
  lemma MergeIsThreeWay(e: Env, r: Repo, b: string, author: string, at: Timestamp, n: nat)
    requires Inv(e, r) && b in r.branches && b != MAIN && Above(r, MAIN, n)
    requires ConflictPaths(r, b) == {}
    ensures var s := MergeInto(e, r, b, author, at, n);
      && MAIN in s.branches && s.branches[b].status == Status.Merged
      && View(s, MAIN) == View(r, MAIN) + ChangesOf(r, b)
      && View(s, MAIN) == View(r, b) + MainChanges(r, b)
      && (forall c :: c in r.branches && c != MAIN ==> View(s, c) == View(r, c))
  {
    hide Net, LogOk, ChainOk, Covered, ReviewsOk, Advance;
    var ours, theirs := ChangesOf(r, b), MainChanges(r, b);
    var s := MergeInto(e, r, b, author, at, n);
    var root := Net(r.files, MAIN, 0, r.branches[b].base);
    MainIsBasePlusMainChanges(r, b);
    MergeKeeps(e, r, b, author, at, n);
    MainIsBasePlusMainChanges(s, MAIN);
    MergeChanges(e, r, b, author, at, n);
    DisjointOverlay(root, ours, theirs);
  }

  lemma InvParts(e: Env, r: Repo)
    requires Inv(e, r)
    ensures LogOk(r) && ChainOk(e, r) && HeadsOk(r) && MainOk(r) && Covered(r) && ReviewsOk(r)
  {
  }

  // ---------------------------------------------------------------------------
  // Rebase, then merge
  // ---------------------------------------------------------------------------

  lemma NothingAboveHead(r: Repo, b: string)
    requires LogOk(r) && HeadsOk(r) && b in r.branches
    ensures Net(r.files, b, r.branches[b].head, r.next) == map[]
  {
    var head := r.branches[b].head;
    NetBeyond(r.files, b, head, head, r.next);
  }

  /** After a rebase main has changed nothing since the base, so a merge cannot conflict. */
  lemma RebasedMerges(e: Env, r: Repo, b: string, author: string, ats: seq<Timestamp>, ns: seq<nat>)
    requires Inv(e, r) && b in r.branches && b != MAIN
    requires |SourcesOf(r, b)| == |ns| == |ats| && AllAbove(r, b, ns)
    ensures var s := RebaseOnto(e, r, b, author, ats, ns);
      && b in s.branches && MAIN in s.branches && s.branches[MAIN] == r.branches[MAIN]
      && MainChanges(s, b) == map[] && ConflictPaths(s, b) == {}
  {
    hide LogOk, ChainOk, Covered, ReviewsOk, Net, Replayed;
    var s := RebaseOnto(e, r, b, author, ats, ns);
    RebaseKeeps(e, r, b, author, ats, ns);
    SourcesNonempty(r, b);
    ReplayedKeeps(e, r, b, author, SourcesOf(r, b), ats, ns, |ns|);
    NothingAboveHead(s, MAIN);
  }

  /**
   * Rebase then merge leaves main with the same tree as a direct conflict-free merge, and never
   * conflicts when main has not moved.
   */
  lemma RebaseThenMerge(e: Env, r: Repo, b: string, author: string, ats: seq<Timestamp>, ns: seq<nat>, merger: string,
      at: Timestamp, n: nat, direct: nat)
    requires Inv(e, r) && b in r.branches && b != MAIN && ConflictPaths(r, b) == {}
    requires |SourcesOf(r, b)| == |ns| == |ats| && AllAbove(r, b, ns)
    requires Above(r, MAIN, direct)
    requires b in RebaseOnto(e, r, b, author, ats, ns).branches && MAIN in RebaseOnto(e, r, b, author, ats, ns).branches
    requires Above(RebaseOnto(e, r, b, author, ats, ns), MAIN, n)
    ensures var s := RebaseOnto(e, r, b, author, ats, ns);
      var viaRebase, directly := MergeInto(e, s, b, merger, at, n), MergeInto(e, r, b, merger, at, direct);
      && ConflictPaths(s, b) == {}
      && MAIN in viaRebase.branches && MAIN in directly.branches
      && View(viaRebase, MAIN) == View(directly, MAIN)
  {
    hide Inv, Net, RebaseOnto, MergeInto, Above, AllAbove, View;
    InvParts(e, r);
    var s := RebaseOnto(e, r, b, author, ats, ns);
    RebasedMerges(e, r, b, author, ats, ns);
    RebaseKeeps(e, r, b, author, ats, ns);
    RebaseKeepsChanges(e, r, b, author, ats, ns);
    InvParts(e, s);
    MergeIsThreeWay(e, r, b, merger, at, direct);
    MergeIsThreeWay(e, s, b, merger, at, n);
    MainIsBasePlusMainChanges(r, MAIN);
    MainIsBasePlusMainChanges(s, MAIN);
  }

  // ---------------------------------------------------------------------------
  // History
  // ---------------------------------------------------------------------------

  predicate CommitOn(r: Repo, b: string, n: nat) { n in r.commits && r.commits[n].branch == b }

  ghost predicate SameLogUpTo(r: Repo, s: Repo, b: string, head: nat) {
    && SameRows(r.files, s.files, b, 0, head)
    && (forall n: nat :: n <= head ==> (CommitOn(r, b, n) <==> CommitOn(s, b, n)))
    && (forall n: nat :: n <= head && CommitOn(r, b, n) && CommitOn(s, b, n) ==> r.commits[n] == s.commits[n])
  }

  /**
   * s is a later state of r: no branch lost, heads only move up, and below a branch's old head
   * the log of the branch is what it was.
   */
  ghost predicate LaterThan(r: Repo, s: Repo) {
    forall b :: b in r.branches ==>
      b in s.branches && r.branches[b].head <= s.branches[b].head && SameLogUpTo(r, s, b, r.branches[b].head)
  }

  lemma LaterThanTransitive(r: Repo, s: Repo, t: Repo)
    requires LaterThan(r, s) && LaterThan(s, t)
    ensures LaterThan(r, t)
  {
    hide RowsAt, CommitOn;
    forall b | b in r.branches ensures SameLogUpTo(r, t, b, r.branches[b].head) {
      assert SameLogUpTo(s, t, b, s.branches[b].head);
    }
  }

  /** Views fixed by committed heads never change: main at any committed head, a branch at a committed base and head. */
  lemma CommittedViewsStable(r: Repo, s: Repo, b: string, base: nat, head: nat)
    requires b in r.branches && SameLogUpTo(r, s, b, r.branches[b].head)
    requires MAIN in r.branches && SameLogUpTo(r, s, MAIN, r.branches[MAIN].head)
    requires base <= r.branches[MAIN].head && head <= r.branches[b].head
    ensures ViewAt(s, b, base, head) == ViewAt(r, b, base, head)
    ensures forall n: nat :: n <= r.branches[b].head ==> PrevHash(s.commits, b, n) == PrevHash(r.commits, b, n)
  {
    hide RowsAt;
    NetAgree(r.files, s.files, MAIN, 0, base);
    NetAgree(r.files, s.files, b, base, head);
    forall n: nat | n <= r.branches[b].head ensures PrevHash(s.commits, b, n) == PrevHash(r.commits, b, n) {
      assert forall m :: m < n && m in s.commits && s.commits[m].branch == b ==> CommitOn(s, b, m) && CommitOn(r, b, m);
      assert forall m :: m < n && m in r.commits && r.commits[m].branch == b ==> CommitOn(r, b, m) && CommitOn(s, b, m);
      PrevHashAgree(s.commits, r.commits, b, n);
    }
  }

  lemma LaterThanItself(r: Repo, s: Repo)
    requires r.commits == s.commits && r.files == s.files && r.branches.Keys <= s.branches.Keys
    requires forall b :: b in r.branches ==> r.branches[b].head <= s.branches[b].head
    ensures LaterThan(r, s)
  {
    hide RowsAt;
  }

  lemma AddCommitLogUpTo(e: Env, r: Repo, b: string, author: string, message: string, at: Timestamp, n: nat,
      rows: Changes, c: string, head: nat)
    requires n !in r.commits && n !in r.files && (c == b ==> head < n)
    ensures SameLogUpTo(r, AddCommit(e, r, b, author, message, at, n, rows), c, head)
  {
  }

  lemma AdvanceIsLater(e: Env, r: Repo, b: string, author: string, message: string, at: Timestamp, n: nat,
      rows: Changes)
    requires LogOk(r) && HeadsOk(r) && b in r.branches && Above(r, b, n)
    ensures LaterThan(r, Advance(e, r, b, author, message, at, n, rows))
  {
    var s := Advance(e, r, b, author, message, at, n, rows);
    AboveIsFresh(r, b, n);
    forall c | c in r.branches ensures SameLogUpTo(r, s, c, r.branches[c].head) {
      AddCommitLogUpTo(e, r, b, author, message, at, n, rows, c, r.branches[c].head);
    }
  }

  lemma MergeIsLater(e: Env, r: Repo, b: string, author: string, at: Timestamp, n: nat)
    requires LogOk(r) && HeadsOk(r) && MainOk(r) && b in r.branches && Above(r, MAIN, n)
    ensures LaterThan(r, MergeInto(e, r, b, author, at, n))
  {
    hide LogOk, HeadsOk, Advance, Above, LaterThan, ChangesOf, MergeMessage;
    if ChangesOf(r, b) == map[] {
      LaterThanItself(r, WithStatus(r, b, Status.Merged));
    } else {
      var t := Advance(e, r, MAIN, author, MergeMessage(b), at, n, ChangesOf(r, b));
      AdvanceIsLater(e, r, MAIN, author, MergeMessage(b), at, n, ChangesOf(r, b));
      AdvanceFields(e, r, MAIN, author, MergeMessage(b), at, n, ChangesOf(r, b));
      LaterThanItself(t, WithStatus(t, b, Status.Merged));
      LaterThanTransitive(r, t, WithStatus(t, b, Status.Merged));
    }
  }

  lemma {:induction false} ReplayedIsLater(e: Env, r: Repo, b: string, author: string, src: seq<nat>,
      ats: seq<Timestamp>, ns: seq<nat>, k: nat)
    requires Inv(e, r) && MAIN in r.branches && b in r.branches
    requires k <= |src| == |ns| == |ats| && AllAbove(r, b, ns)
    requires forall i :: 0 <= i < |src| ==> RowsAt(r.files, b, src[i]) != map[]
    ensures LaterThan(r, Replayed(e, r, b, author, src, ats, ns, k))
  {
    hide Inv, LogOk, ChainOk, HeadsOk, Covered, ReviewsOk, Advance, AllAbove, LaterThan, RowsAt;
    hide ReplayMessage, ReplayAuthor, Above;
    if k == 0 {
      LaterThanItself(r, r);
    } else {
      var s := Replayed(e, r, b, author, src, ats, ns, k - 1);
      ReplayedIsLater(e, r, b, author, src, ats, ns, k - 1);
      ReplayedKeeps(e, r, b, author, src, ats, ns, k - 1);
      NextIsAbove(r, b, ns, k - 1, s);
      InvParts(e, s);
      AdvanceIsLater(e, s, b, ReplayAuthor(author), ReplayMessage(src[k - 1]), ats[k - 1], ns[k - 1],
                     RowsAt(r.files, b, src[k - 1]));
      LaterThanTransitive(r, s, Replayed(e, r, b, author, src, ats, ns, k));
    }
  }

  lemma RebaseIsLater(e: Env, r: Repo, b: string, author: string, ats: seq<Timestamp>, ns: seq<nat>)
    requires Inv(e, r) && b in r.branches && b != MAIN
    requires |SourcesOf(r, b)| == |ns| == |ats| && AllAbove(r, b, ns)
    ensures LaterThan(r, RebaseOnto(e, r, b, author, ats, ns))
  {
    hide Inv, LogOk, ChainOk, Covered, ReviewsOk, LaterThan, RowsAt, Replayed, ChangesOf, AllAbove;
    InvParts(e, r);
    var s := Replayed(e, r, b, author, SourcesOf(r, b), ats, ns, |ns|);
    SourcesNonempty(r, b);
    ReplayedKeeps(e, r, b, author, SourcesOf(r, b), ats, ns, |ns|);
    ReplayedIsLater(e, r, b, author, SourcesOf(r, b), ats, ns, |ns|);
    if ns == [] {
      NoRowsNoCommits(r, b);
    }
    LaterThanItself(s, RebaseOnto(e, r, b, author, ats, ns));
    LaterThanTransitive(r, s, RebaseOnto(e, r, b, author, ats, ns));
  }
}
