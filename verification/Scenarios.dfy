/**
 * Three uses for which the documentation promises more than the code does: a purge of a branch
 * that had a proposal (internal/db/store.go:1655-1660), an approval of one's own change
 * (internal/db/store.go:1077-1079), and a pull from an honest server (internal/cli/app.go:646-648).
 */
module Scenarios {
  import opened Wrappers
  import opened Timestamps
  import opened CommitHashing
  import opened Tables
  import opened Transactions
  import opened Resolving
  import opened Views
  import opened Purging
  import opened Discussions
  import opened StoreSpecs
  import opened Outcomes
  import opened ChainVerify
  import opened ChainTheorems
  import DocStore

  // ---------------------------------------------------------------------------
  // A purge held back by a proposal
  // ---------------------------------------------------------------------------

  /** A branch of an empty repository, merged without a commit, is up for purging once it has aged. */
  lemma MergedIdle(e: Env, r: Repo, b: string, author: string, at: Timestamp, res: MergeResult, s: Repo,
      threshold: Timestamp)
    requires r == EmptyRepo(at) && b != MAIN && at.Before(threshold)
    requires MergeOutcome(e, BranchOff(r, b, false, at), b, author, at, false, res, s)
    ensures b in s.branches && b in PurgeSet(s.branches, s.commits, threshold)
  {
    hide Timestamp.Before;
    assert ChangesOf(BranchOff(r, b, false, at), b) == map[];
    IdleIsPurgeable(s, b, threshold);
  }

  /**
   * Open a proposal on a branch, merge both, wait, purge: the row of the proposal still names the
   * branch, so the purge fails, a dry run included.
   */
  method ProposalBlocksPurge(sha: Sha, t0: Timestamp, t1: Timestamp)
    returns (dry: Result<PurgeResult, StoreError>, wet: Result<PurgeResult, StoreError>)
    requires t0.Before(t1)
    ensures dry == Err(ForeignKeyViolation) && wet == Err(ForeignKeyViolation)
  {
    hide Sound, DiscussionOk, Below, Without, PurgeSet, MergeOutcome;
    var store := new DocStore.DocStore("acme/docs", sha, t0);
    var made := store.CreateBranch("feature", false, t0);
    var proposal := store.CreateProposal("feature");
    ghost var r := store.State();
    var merged := store.Merge("feature", "alice", t0, false);
    MergedIdle(store.Here(), EmptyRepo(t0), "feature", "alice", t0, merged, store.State(), t1);
    var closed := store.MergeProposal("feature");
    ProposalBlocks(store.State(), store.Talk(), proposal.value, t1);
    dry := store.Purge(t1, true);
    wet := store.Purge(t1, false);
  }

  // ---------------------------------------------------------------------------
  // Self-approval after a rebase
  // ---------------------------------------------------------------------------

  lemma RequestedPaths(sha: Sha, docs: map<nat, Doc>, rows: Changes, f: FileChange)
    requires Contents(docs, rows) == HashesOf(sha, [f])
    ensures rows.Keys == {f.path}
  {
    assert [f][..0] == [];
    assert HashesOf(sha, [f]) == HashesOf(sha, [])[f.path := HashOfContent(sha, f.content)];
    assert rows.Keys == Contents(docs, rows).Keys;
  }

  lemma BranchedEmpty(r: Repo, b: string, at: Timestamp)
    requires b != MAIN && r == BranchOff(EmptyRepo(at), b, false, at)
    ensures r.next == 1 && r.commits == map[] && r.files == map[]
    ensures r.branches == map[MAIN := Branch(0, 0, Active, false, at), b := Branch(0, 0, Active, false, at)]
  {
  }

  lemma OneRowEach(files: FileTable, b: string, ours: Changes, theirs: Changes)
    requires b != MAIN && files == map[1 := Rows(b, ours), 2 := Rows(MAIN, theirs)]
    ensures Net(files, b, 0, 3) == ours && Net(files, MAIN, 0, 3) == theirs
  {
    assert Net(files, b, 0, 1) == map[] + ours && Net(files, b, 0, 2) == Net(files, b, 0, 1) + map[];
    assert Net(files, MAIN, 0, 1) == map[] && Net(files, MAIN, 0, 2) == map[] + theirs;
  }

  /** One commit on a branch of an empty repository, and then one on main. */
  lemma OneCommitEach(e: Env, r: Repo, b: string, author: string, other: string, message: string, at: Timestamp,
      ours: Changes, ourDocs: map<nat, Doc>, theirs: Changes, theirDocs: map<nat, Doc>)
    requires b != MAIN && ours.Keys !! theirs.Keys && r == BranchOff(EmptyRepo(at), b, false, at)
    ensures var one := CommitTo(e, Alloc(r, 1), b, author, message, at, r.next, ours, ourDocs);
      MAIN in one.branches &&
      var two := CommitTo(e, Alloc(one, 1), MAIN, other, message, at, one.next, theirs, theirDocs);
      && b in two.branches && MAIN in two.branches && two.branches[b].status == Active && ConflictPaths(two, b) == {}
      && AuthoredAbove(two, b, author) && !WroteAbove(two, b, author, two.branches[MAIN].head)
  {
    hide PrevHash, Contents, Net, BranchOff;
    BranchedEmpty(r, b, at);
    var one := CommitTo(e, Alloc(r, 1), b, author, message, at, r.next, ours, ourDocs);
    var two := CommitTo(e, Alloc(one, 1), MAIN, other, message, at, one.next, theirs, theirDocs);
    assert two.files == map[1 := Rows(b, ours), 2 := Rows(MAIN, theirs)];
    OneRowEach(two.files, b, ours, theirs);
    assert CountsAsAuthor(two.commits, b, 0, author, 1);
  }

  lemma RebasedByAnother(e: Env, r: Repo, b: string, author: string, at: Timestamp, res: RebaseResult, s: Repo,
      who: string)
    requires Sound(e, r) && RebaseOutcome(e, r, b, author, at, res, s)
    requires b in r.branches && b != MAIN && r.branches[b].status == Active && ConflictPaths(r, b) == {}
    requires MAIN in r.branches && !WroteAbove(r, b, who, r.branches[MAIN].head) && who != ReplayAuthor(author)
    ensures b in s.branches && !AuthoredAbove(s, b, who)
  {
    hide Sound, ConflictPaths, WroteAbove, AuthoredAbove, RebasedState;
    AuthorsAfterRebase(e, r, b, author, at, who);
  }

  /** The tables after a commit of one file. */
  ghost predicate CommittedOne(e: Env, sha: Sha, r: Repo, b: string, author: string, at: Timestamp, f: FileChange,
      s: Repo)
  {
    b in r.branches && exists rows: Changes, added: map<nat, Doc> ::
      && Contents(s.docs, rows) == HashesOf(sha, [f])
      && s == CommitTo(e, Alloc(r, 1), b, author, "", at, r.next, rows, added)
  }

  lemma Witnessed(e: Env, sha: Sha, r: Repo, b: string, author: string, at: Timestamp, f: FileChange, s: Repo, id: nat)
    requires b in r.branches
    requires var q := Resolve(sha, r.docs, id, [f]);
      && s == CommitTo(e, Alloc(r, 1), b, author, "", at, r.next, q.rows, q.added)
      && Contents(s.docs, q.rows) == HashesOf(sha, [f])
    ensures CommittedOne(e, sha, r, b, author, at, f, s)
  {
    hide Resolve, CommitTo, Contents, HashesOf;
    var q := Resolve(sha, r.docs, id, [f]);
    assert Contents(s.docs, q.rows) == HashesOf(sha, [f]);
  }

  lemma CommittedEach(e: Env, sha: Sha, r: Repo, b: string, author: string, other: string, at: Timestamp,
      ours: FileChange, theirs: FileChange, s: Repo, t: Repo)
    requires b != MAIN && r == BranchOff(EmptyRepo(at), b, false, at) && ours.path != theirs.path
    requires CommittedOne(e, sha, r, b, author, at, ours, s) && CommittedOne(e, sha, s, MAIN, other, at, theirs, t)
    ensures b in t.branches && MAIN in t.branches && t.branches[b].status == Active && ConflictPaths(t, b) == {}
    ensures AuthoredAbove(t, b, author) && !WroteAbove(t, b, author, t.branches[MAIN].head)
  {
    hide CommitTo, Contents, HashesOf, ConflictPaths, AuthoredAbove, WroteAbove, BranchOff;
    var rows: Changes, added: map<nat, Doc> :| Contents(s.docs, rows) == HashesOf(sha, [ours])
      && s == CommitTo(e, Alloc(r, 1), b, author, "", at, r.next, rows, added);
    var rows2: Changes, added2: map<nat, Doc> :| Contents(t.docs, rows2) == HashesOf(sha, [theirs])
      && t == CommitTo(e, Alloc(s, 1), MAIN, other, "", at, s.next, rows2, added2);
    RequestedPaths(sha, s.docs, rows, ours);
    RequestedPaths(sha, t.docs, rows2, theirs);
    OneCommitEach(e, r, b, author, other, "", at, rows, added, rows2, added2);
  }

  lemma CommittedBranches(e: Env, sha: Sha, r: Repo, b: string, author: string, at: Timestamp, f: FileChange, s: Repo)
    requires CommittedOne(e, sha, r, b, author, at, f, s)
    ensures s.branches == r.branches[b := r.branches[b].(head := r.next)]
  {
    hide Contents, HashesOf, PrevHash;
  }

  /** Commits one file to an active branch. */
  method CommitFile(store: DocStore.DocStore, b: string, author: string, at: Timestamp, f: FileChange)
    requires store.Valid() && b in store.branches && store.branches[b].status == Active
    modifies store
    ensures store.Valid() && CommittedOne(store.Here(), store.sha, old(store.State()), b, author, at, f, store.State())
    ensures store.branches.Keys == old(store.branches).Keys && forall c :: c in store.branches ==>
      store.branches[c].status == old(store.branches)[c].status
  {
    hide Sound, DiscussionOk, Below, Resolve, CommitTo, Contents, HashesOf, CommittedOne;
    ghost var r, id := store.State(), store.nextID;
    var res := store.Commit(b, author, "", at, [f]);
    Witnessed(store.Here(), store.sha, r, b, author, at, f, store.State(), id);
    CommittedBranches(store.Here(), store.sha, r, b, author, at, f, store.State());
  }

  /**
   * Alice commits to a branch and Carol to main. Alice may not approve the branch; once Bob has
   * rebased it, its change is still hers alone and she may.
   */
  method RebaseAllowsSelfApproval(sha: Sha, at: Timestamp)
    returns (before: Result<nat, StoreError>, after: Result<nat, StoreError>)
    ensures before == Err(SelfApproval) && after.Ok?
  {
    hide Sound, DiscussionOk, Below, RebaseOutcome, AuthoredAbove, WroteAbove, ConflictPaths, CommittedOne;
    var store := new DocStore.DocStore("acme/docs", sha, at);
    var made := store.CreateBranch("feature", false, at);
    ghost var r := store.State();
    var ours, theirs := FileChange("a.txt", Some("a")), FileChange("b.txt", Some("b"));
    CommitFile(store, "feature", "alice", at, ours);
    ghost var s := store.State();
    CommitFile(store, MAIN, "carol", at, theirs);
    ghost var t := store.State();
    CommittedEach(store.Here(), sha, r, "feature", "alice", "carol", at, ours, theirs, s, t);
    before := store.CreateReview("feature", "alice", Approved);
    var rebased := store.Rebase("feature", "bob", at);
    RebasedByAnother(store.Here(), t, "feature", "bob", at, rebased, store.State(), "alice");
    after := store.CreateReview("feature", "alice", Approved);
  }

  // ---------------------------------------------------------------------------
  // An honest server accused
  // ---------------------------------------------------------------------------

  /** A hash function without collisions, as far as the texts of a run go. */
  ghost predicate Ideal(sha: Sha) {
    && (forall x: string :: sha(x) != "" && sha(x) != GENESIS_HASH)
    && (forall x: string, y: string :: sha(x) == sha(y) ==> x == y)
  }

  /** Commit 1 on main and commit 2 on the branch. */
  ghost predicate OneOnEach(r: Repo, b: string) {
    && r.commits.Keys == {1, 2} && r.commits[1].branch == MAIN && r.commits[2].branch == b
    && r.commits[1].hash.Some? && r.commits[2].hash.Some?
  }

  lemma FirstCommit(e: Env, sha: Sha, author: string, at: Timestamp, f: FileChange, s: Repo)
    requires CommittedOne(e, sha, EmptyRepo(at), MAIN, author, at, f, s)
    ensures s.next == 2 && s.commits.Keys == {1} && s.commits[1].branch == MAIN && s.commits[1].hash.Some?
    ensures s.branches == map[MAIN := Branch(1, 0, Active, false, at)]
  {
    hide Contents, HashesOf, PrevHash;
  }

  lemma SecondCommit(e: Env, sha: Sha, s: Repo, b: string, author: string, at: Timestamp, f: FileChange, t: Repo)
    requires b != MAIN && MAIN in s.branches && CommittedOne(e, sha, BranchOff(s, b, false, at), b, author, at, f, t)
    requires s.next == 2 && s.commits.Keys == {1} && s.commits[1].branch == MAIN && s.commits[1].hash.Some?
    ensures OneOnEach(t, b) && t.commits[1] == s.commits[1]
  {
    hide Contents, HashesOf, PrevHash;
  }

  lemma HashIsIdeal(repo: string, sha: Sha, r: Repo, n: nat)
    requires ChainOk(Env(repo, Digester(sha)), r) && Ideal(sha) && n in r.commits && r.commits[n].hash.Some?
    ensures r.commits[n].hash.value != "" && r.commits[n].hash.value != GENESIS_HASH && NeverEmpty(sha)
  {
    var e := Env(repo, Digester(sha));
    assert r.commits[n].hash.value == e.digest(RecordAt(e, r, n));
  }

  lemma NeverClashes(sha: Sha)
    requires Ideal(sha)
    ensures forall repo, p, q, first :: TellsApart(sha, repo, p, q, first)
  {
  }

  lemma SoundChain(e: Env, r: Repo)
    requires Sound(e, r)
    ensures ChainOk(e, r)
  {
  }

  lemma OneOnEachFacts(repo: string, sha: Sha, r: Repo, b: string, xs: seq<Entry>)
    requires OneOnEach(r, b) && b != MAIN && Ideal(sha) && IsChain(r, 1, 2, xs) && Sound(Env(repo, Digester(sha)), r)
    ensures LogOk(r) && ChainOk(Env(repo, Digester(sha)), r) && NeverEmpty(sha)
    ensures 1 in r.commits && r.commits[1].hash.Some? && NothingYet(r, b, 1) && xs != [] && HashedFirst(b, xs[1..])
    ensures r.commits[1].hash.value != "" && r.commits[1].hash.value != GENESIS_HASH
    ensures TellsApart(sha, repo, r.commits[1].hash.value, GENESIS_HASH, FirstOn(b, xs[1..]))
  {
    hide Ideal, FirstOn, Sound, ChainOk, LogOk, Inv;
    SoundLog(Env(repo, Digester(sha)), r);
    SoundChain(Env(repo, Digester(sha)), r);
    HashIsIdeal(repo, sha, r, 1);
    assert CommitOn(r, b, 2);
    ChainSplit(r, 1, 2, xs);
    FirstOnIff(r, b, 2, 2, xs[1..]);
    assert TellsApart(sha, repo, r.commits[1].hash.value, GENESIS_HASH, FirstOn(b, xs[1..])) by { NeverClashes(sha); }
  }

  lemma TipIs(r: Repo, tip: seq<Entry>)
    requires IsChain(r, 1, 1, tip) && 1 in r.commits
    ensures tip != [] && tip[0].hash == r.commits[1].hash
  {
  }

  /** A commit on main, a new branch, and a commit on it: the tip sent before, and the chain sent after. */
  method ServeTwice(sha: Sha, at: Timestamp)
    returns (tip: seq<Entry>, xs: seq<Entry>, ghost r: Repo)
    ensures Sound(Env("acme/docs", Digester(sha)), r) && OneOnEach(r, "feature")
    ensures tip != [] && tip[0].hash == r.commits[1].hash && IsChain(r, 1, 2, xs)
  {
    hide Sound, DiscussionOk, Below, CommittedOne, IsChain, OneOnEach;
    var store := new DocStore.DocStore("acme/docs", sha, at);
    CommitFile(store, MAIN, "alice", at, FileChange("a.txt", Some("a")));
    ghost var s := store.State();
    FirstCommit(store.Here(), sha, "alice", at, FileChange("a.txt", Some("a")), s);
    tip := GetChain(store, 1, 1);
    TipIs(s, tip);
    var made := store.CreateBranch("feature", false, at);
    CommitFile(store, "feature", "bob", at, FileChange("b.txt", Some("b")));
    r := store.State();
    SecondCommit(store.Here(), sha, s, "feature", "bob", at, FileChange("b.txt", Some("b")), r);
    xs := GetChain(store, 1, 2);
  }

  /**
   * A client pulls main and checks out a new branch, to which Bob then commits. The client's next
   * pull is told that the chain is broken, by an honest server and a hash without collisions; the
   * one after it, with nothing changed, succeeds.
   */
  method NewBranchIsAccused(sha: Sha, at: Timestamp) returns (err: Option<nat>, again: Option<nat>)
    requires Ideal(sha)
    ensures err.Some? && again.None?
  {
    hide Sound, ChainOk, LogOk, HeadsOk, MainOk, Inv, IsChain, PullAccepts, Genuine, Ideal, NothingYet, CommitWithin,
      TellsApart, HashedFirst, FirstOn, NeverEmpty, OneOnEach, CommitOn;
    var tip, xs;
    ghost var r, texts;
    tip, xs, r := ServeTwice(sha, at);
    OneOnEachFacts("acme/docs", sha, r, "feature", xs);
    var client := new Client(sha, "acme/docs", MAIN);
    again, texts := client.Pull(1, (from, upto) => tip, false);
    err := PullNewBranch(client, r, "feature", 1, 2, (from, upto) => xs, xs);
    again, texts := client.Pull(2, (from, upto) => xs, false);
  }
}
