/**
 * A store over its whole life: requests arrive at any time and run in any interleaving, and old
 * branches are purged while no transaction is under way.
 */
module Histories {
  import opened Wrappers
  import opened Timestamps
  import opened CommitHashing
  import opened Tables
  import opened Transactions
  import opened Resolving
  import opened Views
  import opened Purging
  import opened Interleaving
  import opened InterleavingProofs
  import opened Schedules
  import opened Runs
  import opened Outcomes
  import StoreSpecs

  /** A purge that something blocks changes nothing, and is left out. */
  datatype Happening = Step(i: nat, a: Action) | Arrive(q: Request) | Purge(threshold: Timestamp)

  function Newcomer(q: Request): Txn { Txn(q, Idle, 0, [], 0, [], 0, map[], map[], map[]) }

  ghost predicate Possible(s: Sys, x: Happening) {
    match x
    case Step(i, a) => Enabled(s, i, a)
    case Arrive(q) => Acceptable(q)
    case Purge(_) => forall t :: t in s.txns ==> t.phase.Ended?
  }

  ghost function After(e: Env, sha: Sha, s: Sys, x: Happening): Sys
    requires Possible(s, x)
  {
    match x
    case Step(i, a) => Next(e, sha, s, i, a)
    case Arrive(q) => s.(txns := s.txns + [Newcomer(q)])
    case Purge(threshold) => Sys(Without(s.db, PurgeSet(s.db.branches, s.db.commits, threshold)), s.versions, [])
  }

  /** What happens takes s to o. */
  ghost predicate History(e: Env, sha: Sha, s: Sys, xs: seq<Happening>, o: Sys)
    decreases |xs|
  {
    if xs == [] then o == s else Possible(s, xs[0]) && History(e, sha, After(e, sha, s, xs[0]), xs[1..], o)
  }

  /** No purge on the way takes the branch. */
  ghost predicate Spared(e: Env, sha: Sha, s: Sys, xs: seq<Happening>, b: string)
    decreases |xs|
  {
    xs != [] && Possible(s, xs[0]) ==>
      && (xs[0].Purge? ==> b !in PurgeSet(s.db.branches, s.db.commits, xs[0].threshold))
      && Spared(e, sha, After(e, sha, s, xs[0]), xs[1..], b)
  }

  lemma ArrivalKeeps(e: Env, sha: Sha, s: Sys, q: Request)
    requires SysOk(e, sha, s) && Acceptable(q)
    ensures SysOk(e, sha, s.(txns := s.txns + [Newcomer(q)]))
  {
    hide Inv, NoOrphans, Below, WritingOk, Refused, Acceptable;
    var t := Newcomer(q);
    assert TxnOk(e, sha, s.db, s.versions, t);
    forall i | 0 <= i < |s.txns| ensures Apart(t, s.txns[i]) && Apart(s.txns[i], t) {
    }
  }

  lemma PurgeStepKeeps(e: Env, sha: Sha, s: Sys, threshold: Timestamp)
    requires SysOk(e, sha, s)
    ensures SysOk(e, sha, Sys(Without(s.db, PurgeSet(s.db.branches, s.db.commits, threshold)), s.versions, []))
  {
    hide Inv, NoOrphans, Without, TxnOk, Apart, PurgeSet;
    StoreSpecs.PurgeSetMembers(s.db, threshold);
    StoreSpecs.PurgeSound(e, s.db, PurgeSet(s.db.branches, s.db.commits, threshold), s.versions);
  }

  lemma HappeningKeeps(e: Env, sha: Sha, s: Sys, x: Happening)
    requires SysOk(e, sha, s) && Possible(s, x)
    ensures SysOk(e, sha, After(e, sha, s, x))
  {
    hide SysOk, Enabled, Next, Without, PurgeSet, Acceptable;
    match x
    case Step(i, a) => StepKeeps(e, sha, s, i, a);
    case Arrive(q) => ArrivalKeeps(e, sha, s, q);
    case Purge(threshold) => PurgeStepKeeps(e, sha, s, threshold);
  }

  /** The store is sound all its life. */
  lemma {:induction false} HistoryKeeps(e: Env, sha: Sha, s: Sys, xs: seq<Happening>, o: Sys)
    requires SysOk(e, sha, s) && History(e, sha, s, xs, o)
    ensures SysOk(e, sha, o) && StoreSpecs.Sound(e, o.db)
    decreases |xs|
  {
    hide Possible, After, Inv, NoOrphans, TxnOk, Apart;
    if xs != [] {
      HappeningKeeps(e, sha, s, xs[0]);
      HistoryKeeps(e, sha, After(e, sha, s, xs[0]), xs[1..], o);
    }
  }

  // ---------------------------------------------------------------------------
  // What is said of a branch stays said
  // ---------------------------------------------------------------------------

  /** A purge leaves the logs of the branches it does not take. */
  lemma PurgeSpares(r: Repo, dead: set<string>, b: string)
    requires b in r.branches && b !in dead
    ensures b in Without(r, dead).branches && Without(r, dead).branches[b] == r.branches[b]
    ensures forall head: nat :: SameLogUpTo(r, Without(r, dead), b, head)
  {
    SurvivorRows(r, dead, b);
  }

  lemma SameLogTransitive(r: Repo, s: Repo, t: Repo, b: string, head: nat, later: nat)
    requires SameLogUpTo(r, s, b, head) && SameLogUpTo(s, t, b, later) && head <= later
    ensures SameLogUpTo(r, t, b, head)
  {
    hide RowsAt, CommitOn;
  }

  ghost predicate GrownFrom(r: Repo, s: Repo, b: string)
    requires b in r.branches
  {
    b in s.branches && r.branches[b].head <= s.branches[b].head && SameLogUpTo(r, s, b, r.branches[b].head)
  }

  lemma HappeningSpares(e: Env, sha: Sha, s: Sys, x: Happening, b: string)
    requires SysOk(e, sha, s) && Possible(s, x) && b in s.db.branches
    requires x.Purge? ==> b !in PurgeSet(s.db.branches, s.db.commits, x.threshold)
    ensures GrownFrom(s.db, After(e, sha, s, x).db, b)
  {
    hide SysOk, Enabled, Next, Without, PurgeSet, Acceptable, SameLogUpTo;
    match x
    case Step(i, a) => StepKeeps(e, sha, s, i, a);
    case Arrive(q) => LaterThanItself(s.db, s.db);
    case Purge(threshold) => PurgeSpares(s.db, PurgeSet(s.db.branches, s.db.commits, threshold), b);
  }

  lemma {:induction false} HistorySpares(e: Env, sha: Sha, s: Sys, xs: seq<Happening>, o: Sys, b: string)
    requires SysOk(e, sha, s) && History(e, sha, s, xs, o) && b in s.db.branches && Spared(e, sha, s, xs, b)
    ensures GrownFrom(s.db, o.db, b)
    decreases |xs|
  {
    hide SysOk, Possible, After, PurgeSet, SameLogUpTo;
    if xs == [] {
      LaterThanItself(s.db, s.db);
    } else {
      var m := After(e, sha, s, xs[0]);
      HappeningKeeps(e, sha, s, xs[0]);
      HappeningSpares(e, sha, s, xs[0], b);
      HistorySpares(e, sha, m, xs[1..], o, b);
      SameLogTransitive(s.db, m.db, o.db, b, s.db.branches[b].head, m.db.branches[b].head);
    }
  }

  lemma {:induction false} MainIsSpared(e: Env, sha: Sha, s: Sys, xs: seq<Happening>)
    ensures Spared(e, sha, s, xs, MAIN)
    decreases |xs|
  {
    hide Possible, After, PurgeSet;
    if xs != [] && Possible(s, xs[0]) {
      MainIsSpared(e, sha, After(e, sha, s, xs[0]), xs[1..]);
      if xs[0].Purge? {
        StoreSpecs.PurgeSetMembers(s.db, xs[0].threshold);
      }
    }
  }

  lemma SystemHasMain(e: Env, sha: Sha, s: Sys)
    requires SysOk(e, sha, s)
    ensures MAIN in s.db.branches && LogOk(s.db) && ChainOk(e, s.db)
  {
    hide LogOk, ChainOk, TxnOk, Apart;
  }

  lemma SameLogMeans(e: Env, r: Repo, s: Repo, b: string, head: nat)
    requires StoreSpecs.Sound(e, r) && StoreSpecs.Sound(e, s) && SameLogUpTo(r, s, b, head)
    ensures forall n :: n <= head && n in r.commits && r.commits[n].branch == b ==>
      n in s.commits && s.commits[n] == r.commits[n] && n in r.files && n in s.files && s.files[n] == r.files[n]
    ensures forall n :: n <= head && n in s.commits && s.commits[n].branch == b ==>
      n in r.commits && r.commits[n].branch == b
  {
    hide ChainOk, HeadsOk, MainOk, Covered, ReviewsOk, NoOrphans;
    forall n | n <= head && n in r.commits && r.commits[n].branch == b
      ensures n in s.commits && s.commits[n] == r.commits[n] && n in s.files && s.files[n] == r.files[n]
    {
      assert CommitOn(r, b, n) && CommitOn(s, b, n);
      assert RowsAt(r.files, b, n) == RowsAt(s.files, b, n);
    }
    forall n | n <= head && n in s.commits && s.commits[n].branch == b
      ensures n in r.commits && r.commits[n].branch == b
    {
      assert CommitOn(s, b, n) && CommitOn(r, b, n);
    }
  }

  /**
   * In every history from a sound store, at any two moments between which no purge takes the
   * branch: what its log says up to the head it had at the first moment is what it says at the
   * second, and so are the views at bases and heads committed then.
   */
  lemma HistoryIsStable(e: Env, sha: Sha, start: Sys, first: seq<Happening>, s: Sys, second: seq<Happening>, o: Sys,
      b: string, base: nat, head: nat)
    requires Start(e, start) && History(e, sha, start, first, s) && History(e, sha, s, second, o)
    requires b in s.db.branches && Spared(e, sha, s, second, b) && MAIN in s.db.branches
    requires base <= s.db.branches[MAIN].head && head <= s.db.branches[b].head
    ensures StoreSpecs.Sound(e, s.db) && StoreSpecs.Sound(e, o.db)
    ensures b in o.db.branches && s.db.branches[b].head <= o.db.branches[b].head
    ensures SameLogUpTo(s.db, o.db, b, s.db.branches[b].head)
    ensures forall n :: n <= s.db.branches[b].head && n in s.db.commits && s.db.commits[n].branch == b ==>
      && n in o.db.commits && o.db.commits[n] == s.db.commits[n]
      && n in s.db.files && n in o.db.files && o.db.files[n] == s.db.files[n]
    ensures forall n :: n <= s.db.branches[b].head && n in o.db.commits && o.db.commits[n].branch == b ==>
      n in s.db.commits && s.db.commits[n].branch == b
    ensures ViewAt(o.db, b, base, head) == ViewAt(s.db, b, base, head)
  {
    hide SysOk, StoreSpecs.Sound, History, Spared, ViewAt, SameLogUpTo, Start;
    StartIsOk(e, sha, start);
    HistoryKeeps(e, sha, start, first, s);
    HistoryKeeps(e, sha, s, second, o);
    HistorySpares(e, sha, s, second, o, b);
    MainIsSpared(e, sha, s, second);
    HistorySpares(e, sha, s, second, o, MAIN);
    CommittedViewsStable(s.db, o.db, b, base, head);
    SameLogMeans(e, s.db, o.db, b, s.db.branches[b].head);
  }

  // ---------------------------------------------------------------------------
  // Reviews
  // ---------------------------------------------------------------------------

  /** A transaction that writes commits moves the head of their branch, and of no other. */
  lemma FinishMovesHead(e: Env, sha: Sha, s: Sys, i: nat)
    requires SysOk(e, sha, s) && Enabled(s, i, Finish) && Commits(s.txns[i].req) && s.txns[i].ns != []
    ensures var m, b := Next(e, sha, s, i, Finish).db, Target(s.txns[i].req);
      && b in s.db.branches && b in m.branches && s.db.branches[b].head < m.branches[b].head
      && m.reviews == s.db.reviews
      && (forall c :: c in s.db.branches && c != b ==>
            c in m.branches && m.branches[c].head == s.db.branches[c].head)
  {
    hide Inv, Refused, AddedOk, RowsOk, Made, MadeFiles, Apart, HashesOf, ChangesOf, GroupSeqs;
    var t := s.txns[i];
    assert TxnOk(e, sha, s.db, s.versions, t);
    assert t.req.CommitReq? || t.req.MergeReq? || t.req.RebaseReq?;
    assert Target(t.req) in AllLocks(t.req) && t.ns[|t.ns| - 1] in t.ns;
  }

  lemma StaysStale(e: Env, r: Repo, m: Repo, o: Repo, b: string, v: Review)
    requires Inv(e, r) && b in r.branches && b in m.branches && r.branches[b].head < m.branches[b].head
    requires GrownFrom(m, o, b) && v in r.reviews && v.branch == b
    ensures b in o.branches && v.sequence < m.branches[b].head <= o.branches[b].head
  {
    hide LogOk, ChainOk, HeadsOk, Covered, SameLogUpTo;
  }

  lemma HaveReviewedBranches(e: Env, r: Repo)
    requires StoreSpecs.Sound(e, r)
    ensures Inv(e, r) && forall v :: v in r.reviews ==> v.branch in r.branches
  {
    hide LogOk, ChainOk, HeadsOk, MainOk, Covered, NoOrphans;
  }

  lemma CountedAreCurrent(e: Env, r: Repo)
    requires StoreSpecs.Sound(e, r)
    ensures forall v :: v in r.reviews && v.branch in r.branches && v.sequence == r.branches[v.branch].head ==>
      v.seen == Net(r.files, v.branch, r.branches[v.branch].base, r.next)
  {
    hide LogOk, ChainOk, HeadsOk, MainOk, Covered, NoOrphans;
  }

  /**
   * When a transaction commits new commits to a branch, the branch's earlier reviews are dropped
   * for good, and no other review is; and at any moment every review that counts was written
   * against the change set its branch has then.
   */
  lemma ReviewsDropForGood(e: Env, sha: Sha, start: Sys, first: seq<Happening>, s: Sys, i: nat,
      second: seq<Happening>, o: Sys)
    requires Start(e, start) && History(e, sha, start, first, s)
    requires Enabled(s, i, Finish) && Commits(s.txns[i].req) && s.txns[i].ns != []
    requires var m := Next(e, sha, s, i, Finish);
      History(e, sha, m, second, o) && Spared(e, sha, m, second, Target(s.txns[i].req))
    ensures var m, b := Next(e, sha, s, i, Finish).db, Target(s.txns[i].req);
      && b in m.branches && m.reviews == s.db.reviews
      && (forall v :: v in s.db.reviews && v.branch == b ==>
            v.sequence < m.branches[b].head && (b in o.db.branches ==> v.sequence < o.db.branches[b].head))
      && (forall c :: c in s.db.branches && c != b ==>
            c in m.branches && m.branches[c].head == s.db.branches[c].head)
    ensures forall v :: v in o.db.reviews && v.branch in o.db.branches && v.sequence == o.db.branches[v.branch].head ==>
      v.seen == Net(o.db.files, v.branch, o.db.branches[v.branch].base, o.db.next)
  {
    hide SysOk, History, Spared, Start, Next, Enabled, Inv, NoOrphans, GrownFrom;
    InRange(s, i, Finish);
    var m, b := Next(e, sha, s, i, Finish), Target(s.txns[i].req);
    StartIsOk(e, sha, start);
    HistoryKeeps(e, sha, start, first, s);
    StepKeeps(e, sha, s, i, Finish);
    HistoryKeeps(e, sha, m, second, o);
    FinishMovesHead(e, sha, s, i);
    HistorySpares(e, sha, m, second, o, b);
    forall v | v in s.db.reviews && v.branch == b
      ensures v.sequence < m.db.branches[b].head && b in o.db.branches && v.sequence < o.db.branches[b].head
    {
      StaysStale(e, s.db, m.db, o.db, b, v);
    }
    HaveReviewedBranches(e, s.db);
    CountedAreCurrent(e, o.db);
  }
}
