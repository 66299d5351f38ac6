/** What the outcomes of the store's transactions mean for their callers, across several calls. */
module Outcomes {
  import opened Wrappers
  import opened Timestamps
  import opened CommitHashing
  import opened Tables
  import opened Transactions
  import opened Resolving
  import opened Views
  import opened Purging
  import opened StoreSpecs

  ghost function Paths(cs: seq<MergeConflict>): set<string> { set i | 0 <= i < |cs| :: cs[i].path }

  lemma PathsSnoc(cs: seq<MergeConflict>, c: MergeConflict)
    ensures Paths(cs + [c]) == Paths(cs) + {c.path}
  {
    var more := cs + [c];
    forall p | p in Paths(cs) + {c.path} ensures p in Paths(more) {
      if p == c.path {
        assert more[|cs|].path == p;
      } else {
        var i :| 0 <= i < |cs| && cs[i].path == p;
        assert more[i].path == p;
      }
    }
    forall p | p in Paths(more) ensures p in Paths(cs) + {c.path} {
      var i :| 0 <= i < |more| && more[i].path == p;
      assert i < |cs| ==> cs[i].path == p;
    }
  }

  lemma {:induction false} DistinctPathsCount(cs: seq<MergeConflict>)
    requires forall i, j :: 0 <= i < j < |cs| ==> cs[i].path != cs[j].path
    ensures |cs| == |Paths(cs)|
  {
    if cs != [] {
      var n := |cs| - 1;
      DistinctPathsCount(cs[..n]);
      PathsSnoc(cs[..n], cs[n]);
      assert cs == cs[..n] + [cs[n]];
    }
  }

  lemma ReportedPaths(ours: Changes, theirs: Changes, cs: seq<MergeConflict>)
    requires Reports(ours, theirs, cs)
    ensures Paths(cs) == ours.Keys * theirs.Keys && |cs| == |Paths(cs)|
  {
    forall p | p in ours.Keys * theirs.Keys ensures p in Paths(cs) {
      var i :| 0 <= i < |cs| && cs[i].path == p;
    }
    DistinctPathsCount(cs);
  }

  /** A merge that reaches conflict detection reports exactly the paths changed on both sides. */
  lemma MergeReportsConflicts(e: Env, r: Repo, b: string, author: string, at: Timestamp, dryRun: bool,
      res: MergeResult, s: Repo)
    requires Sound(e, r) && b in r.branches && r.branches[b].status == Active && !r.branches[b].draft
    requires MergeOutcome(e, r, b, author, at, dryRun, res, s)
    ensures res.MergeConflicts? <==> ConflictPaths(r, b) != {}
    ensures res.MergeConflicts? ==>
        Paths(res.conflicts) == ConflictPaths(r, b) && |res.conflicts| == |ConflictPaths(r, b)| && s == r
    ensures !res.MergeConflicts? ==> res.MergedAt?
  {
    if res.MergeConflicts? {
      ReportedPaths(ChangesOf(r, b), MainChanges(r, b), res.conflicts);
    } else {
      assert ChangesOf(r, b) == map[] ==> ConflictPaths(r, b) == {};
    }
  }

  predicate SameVerdict(x: MergeResult, y: MergeResult) {
    match x
    case MergedAt(_) => y.MergedAt?
    case MergeConflicts(cs) => y.MergeConflicts? && |cs| == |y.conflicts|
    case MergeFailed(error) => y == x
  }

  /**
   * A dry run gives the verdict of the real merge and leaves every table as it was; what it may
   * cost is one value of the sequence.
   */
  lemma DryRunAgrees(e: Env, r: Repo, b: string, author: string, at: Timestamp, dry: MergeResult, s: Repo,
      wet: MergeResult, t: Repo)
    requires MergeOutcome(e, r, b, author, at, true, dry, s) && MergeOutcome(e, r, b, author, at, false, wet, t)
    ensures SameVerdict(dry, wet)
    ensures dry.MergeConflicts? && wet.MergeConflicts? ==> Paths(dry.conflicts) == Paths(wet.conflicts)
    ensures s == r || s == Alloc(r, 1)
  {
    hide Reports;
    if dry.MergeConflicts? && wet.MergeConflicts? {
      ReportedPaths(ChangesOf(r, b), MainChanges(r, b), dry.conflicts);
      ReportedPaths(ChangesOf(r, b), MainChanges(r, b), wet.conflicts);
    }
  }

  /** Main after a conflict-free merge: main's changes overlaid with the branch's. */
  lemma MergedMain(e: Env, r: Repo, b: string, author: string, at: Timestamp)
    requires Sound(e, r) && b in r.branches && b != MAIN && MAIN in r.branches
    ensures var s := MergedState(e, r, b, author, at);
      MAIN in s.branches && ChangesOf(s, MAIN) == ChangesOf(r, MAIN) + ChangesOf(r, b)
  {
    hide LogOk, ChainOk, HeadsOk, Covered, ReviewsOk, Net, MergeInto, Above;
    AllocKeeps(e, r, 1);
    AboveNext(e, r, MAIN);
    MergeChanges(e, Alloc(r, 1), b, author, at, r.next);
    if ChangesOf(r, b) == map[] {
      assert ChangesOf(r, MAIN) + map[] == ChangesOf(r, MAIN);
    }
  }

  lemma RebasedFacts(e: Env, r: Repo, b: string, author: string, at: Timestamp)
    requires Sound(e, r) && b in r.branches && b != MAIN && MAIN in r.branches
    ensures var s := RebasedState(e, r, b, author, at);
      && b in s.branches && MAIN in s.branches && s.branches[b].status == r.branches[b].status
      && s.branches[b].draft == r.branches[b].draft
      && ChangesOf(s, MAIN) == ChangesOf(r, MAIN) && ChangesOf(s, b) == ChangesOf(r, b)
      && ConflictPaths(s, b) == {}
  {
    hide LogOk, ChainOk, HeadsOk, Covered, ReviewsOk, Net, Above, Replayed, GroupSeqs, RowsAt;
    var k := |SourcesOf(r, b)|;
    AllocKeeps(e, r, k);
    NumbersAbove(e, r, b);
    RebaseKeepsChanges(e, Alloc(r, k), b, author, Repeat(at, k), RebaseNumbers(r, b));
    RebasedMerges(e, Alloc(r, k), b, author, Repeat(at, k), RebaseNumbers(r, b));
    ReplayedFields(e, Alloc(r, k), b, author, SourcesOf(r, b), Repeat(at, k), RebaseNumbers(r, b), k);
  }

  /**
   * Rebase keeps the branch's net change. Merging right after it never conflicts and leaves main
   * with the same tree as merging directly.
   */
  lemma RebaseThenMergeOutcome(e: Env, r: Repo, b: string, author: string, at: Timestamp, reb: RebaseResult, s: Repo,
      merger: string, later: Timestamp, via: MergeResult, t: Repo, direct: MergeResult, d: Repo)
    requires Sound(e, r) && b in r.branches && !r.branches[b].draft
    requires RebaseOutcome(e, r, b, author, at, reb, s) && reb.RebasedTo?
    requires MergeOutcome(e, s, b, merger, later, false, via, t)
    requires MergeOutcome(e, r, b, merger, later, false, direct, d)
    ensures b in s.branches && ChangesOf(s, b) == ChangesOf(r, b)
    ensures via.MergedAt? && direct.MergedAt?
    ensures MAIN in t.branches && MAIN in d.branches && View(t, MAIN) == View(d, MAIN)
  {
    hide Sound, Inv, Net, RebasedState, MergedState, Reports;
    SoundNext(e, r, b);
    SoundLog(e, r);
    RebasedFacts(e, r, b, author, at);
    RebaseSound(e, r, b, author, at);
    MergedMain(e, s, b, merger, later);
    MergedMain(e, r, b, merger, later);
    MergeSound(e, r, b, merger, later);
    MergeSound(e, s, b, merger, later);
    SoundLog(e, t);
    SoundLog(e, d);
    MainIsBasePlusMainChanges(t, MAIN);
    MainIsBasePlusMainChanges(d, MAIN);
  }

  // ---------------------------------------------------------------------------
  // Authors
  // ---------------------------------------------------------------------------

  predicate WroteAt(r: Repo, b: string, who: string, n: nat) {
    n in r.commits && r.commits[n].branch == b && r.commits[n].author == who
  }

  ghost predicate WroteAbove(r: Repo, b: string, who: string, lo: nat) {
    exists n :: n > lo && WroteAt(r, b, who, n)
  }

  lemma {:induction false} ReplayedAuthors(e: Env, r: Repo, b: string, author: string, src: seq<nat>,
      ats: seq<Timestamp>, ns: seq<nat>, k: nat, who: string)
    requires b in r.branches && k <= |src| == |ns| == |ats|
    requires forall n :: n in ns ==> n !in r.commits
    ensures var s := Replayed(e, r, b, author, src, ats, ns, k);
      forall n :: WroteAt(s, b, who, n) <==> WroteAt(r, b, who, n) || (who == ReplayAuthor(author) && n in ns[..k])
  {
    hide RowsAt, PrevHash, ReplayMessage, ReplayAuthor;
    if k > 0 {
      ReplayedAuthors(e, r, b, author, src, ats, ns, k - 1, who);
      assert ns[..k] == ns[..k - 1] + [ns[k - 1]];
    }
  }

  lemma SameAuthorship(r: Repo, s: Repo, b: string, who: string)
    requires r.commits == s.commits
    ensures forall n :: WroteAt(r, b, who, n) <==> WroteAt(s, b, who, n)
  {
  }

  lemma BeyondNext(r: Repo, b: string)
    requires LogOk(r) && HeadsOk(r) && b in r.branches && MAIN in r.branches
    ensures forall n :: n in RebaseNumbers(r, b) ==> n !in r.commits && n > r.branches[MAIN].head
    ensures RebaseNumbers(r, b) == [] <==> SourcesOf(r, b) == []
  {
  }

  lemma RebasedAuthors(e: Env, r: Repo, b: string, author: string, at: Timestamp, who: string)
    requires Sound(e, r) && b in r.branches && b != MAIN && MAIN in r.branches
    ensures var s := RebasedState(e, r, b, author, at);
      && b in s.branches && s.branches[b].base == r.branches[MAIN].head
      && (forall n :: WroteAt(s, b, who, n) <==>
            WroteAt(r, b, who, n) || (who == ReplayAuthor(author) && n in RebaseNumbers(r, b)))
  {
    hide Inv, NoOrphans, LogOk, HeadsOk, MainOk, Replayed, ReplayAuthor, ChangesOf, MainChanges, SourcesOf, WroteAt;
    SoundLog(e, r);
    var k, ns := |SourcesOf(r, b)|, RebaseNumbers(r, b);
    AllocKeeps(e, r, k);
    BeyondNext(r, b);
    ReplayedFields(e, Alloc(r, k), b, author, SourcesOf(r, b), Repeat(at, k), ns, k);
    ReplayedAuthors(e, Alloc(r, k), b, author, SourcesOf(r, b), Repeat(at, k), ns, k, who);
    var t := Replayed(e, Alloc(r, k), b, author, SourcesOf(r, b), Repeat(at, k), ns, k);
    SameAuthorship(t, RebasedState(e, r, b, author, at), b, who);
    SameAuthorship(r, Alloc(r, k), b, who);
    assert ns[..k] == ns;
  }

  lemma WroteMore(r: Repo, s: Repo, b: string, who: string, ns: seq<nat>, mine: bool, lo: nat)
    requires forall n :: WroteAt(s, b, who, n) <==> WroteAt(r, b, who, n) || (mine && n in ns)
    requires forall n :: n in ns ==> n > lo
    ensures WroteAbove(s, b, who, lo) <==> WroteAbove(r, b, who, lo) || (mine && ns != [])
  {
    hide WroteAt;
    if mine && ns != [] {
      assert ns[0] in ns && WroteAt(s, b, who, ns[0]);
    }
  }

  lemma AuthoredIsWrote(r: Repo, b: string, who: string)
    requires b in r.branches
    ensures AuthoredAbove(r, b, who) <==> WroteAbove(r, b, who, r.branches[b].base)
  {
    if n :| n in r.commits && CountsAsAuthor(r.commits, b, r.branches[b].base, who, n) {
      assert WroteAt(r, b, who, n);
    }
    if n :| n > r.branches[b].base && WroteAt(r, b, who, n) {
      assert CountsAsAuthor(r.commits, b, r.branches[b].base, who, n);
    }
  }

  lemma AuthorsAfterRebase(e: Env, r: Repo, b: string, author: string, at: Timestamp, who: string)
    requires Sound(e, r) && b in r.branches && b != MAIN && MAIN in r.branches
    ensures var s, replays := RebasedState(e, r, b, author, at), SourcesOf(r, b) != [] && who == ReplayAuthor(author);
      && b in s.branches
      && (AuthoredAbove(s, b, who) <==> WroteAbove(r, b, who, r.branches[MAIN].head) || replays)
      && (WroteAbove(s, b, who, 0) && !AuthoredAbove(s, b, who) <==>
            WroteAbove(r, b, who, 0) && !WroteAbove(r, b, who, r.branches[MAIN].head) && !replays)
  {
    hide Inv, NoOrphans, RebasedState, SourcesOf, RebaseNumbers, ReplayAuthor, WroteAt, WroteAbove, AuthoredAbove;
    SoundLog(e, r);
    var s, ns, mine := RebasedState(e, r, b, author, at), RebaseNumbers(r, b), who == ReplayAuthor(author);
    RebasedAuthors(e, r, b, author, at, who);
    BeyondNext(r, b);
    WroteMore(r, s, b, who, ns, mine, r.branches[MAIN].head);
    WroteMore(r, s, b, who, ns, mine, 0);
    AuthoredIsWrote(s, b, who);
  }

  // ---------------------------------------------------------------------------
  // Purge
  // ---------------------------------------------------------------------------

  lemma CountSplit<K, V>(all: map<K, V>, kept: map<K, V>, gone: set<K>)
    requires all.Keys == kept.Keys + gone && kept.Keys !! gone
    ensures |all| - |kept| == |gone|
  {
    assert |all.Keys| == |all| && |kept.Keys| == |kept|;
  }

  function CommitsOf(commits: map<nat, Commit>, dead: set<string>): set<nat> {
    set n | n in commits && commits[n].branch in dead
  }

  lemma GoneCommits(r: Repo, dead: set<string>)
    requires LogOk(r)
    ensures |r.commits| - |KeptCommits(r.commits, dead, KeptFiles(r.files, dead))| == |CommitsOf(r.commits, dead)|
  {
    var files := KeptFiles(r.files, dead);
    var kept := KeptCommits(r.commits, dead, files);
    forall n | n in r.commits ensures n in kept <==> r.commits[n].branch !in dead {
      assert n in files <==> r.files[n].branch !in dead;
    }
    CountSplit(r.commits, kept, CommitsOf(r.commits, dead));
  }

  lemma GoneDocs(docs: map<nat, Doc>, files: FileTable)
    ensures |docs| - |KeptDocs(docs, files)| == |set v | v in docs && !Referenced(files, v)|
  {
    hide Referenced;
    CountSplit(docs, KeptDocs(docs, files), set v | v in docs && !Referenced(files, v));
  }

  /**
   * The counts are those of the rows deleted: the branches that go, their commits, file rows and
   * reviews, and the documents that no surviving row names.
   */
  lemma PurgeCountsMean(e: Env, r: Repo, threshold: Timestamp)
    requires Sound(e, r)
    ensures var s := Without(r, PurgeSet(r.branches, r.commits, threshold));
      var res, gone := PurgeCounts(r, s), r.branches.Keys - s.branches.Keys;
      && res.branches == |gone|
      && res.commits == |CommitsOf(r.commits, gone)|
      && res.fileCommits == |RowsOf(r.files, gone)|
      && res.reviews == |ReviewsOf(r.reviews, gone)|
      && res.documents == |set v | v in r.docs && !Referenced(s.files, v)|
  {
    hide PurgeSet, KeptReviews, KeptFiles, KeptCommits, KeptDocs, Inv, LogOk, NoOrphans, RowCount, Referenced,
      CommitsOf, RowsOf, ReviewsOf;
    var dead := PurgeSet(r.branches, r.commits, threshold);
    SoundLog(e, r);
    PurgeSetMembers(r, threshold);
    assert dead == r.branches.Keys - Without(r, dead).branches.Keys;
    CountSplit(r.branches, r.branches - dead, dead);
    GoneCommits(r, dead);
    GoneRows(r, dead);
    GoneReviews(r.reviews, dead);
    GoneDocs(r.docs, KeptFiles(r.files, dead));
  }
}
