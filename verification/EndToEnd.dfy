/** The store over its whole life, seen by a client that verifies its chain. */
module EndToEnd {
  import opened Wrappers
  import opened Strings
  import opened Timestamps
  import opened CommitHashing
  import opened Tables
  import opened Transactions
  import opened Views
  import opened Interleaving
  import opened InterleavingProofs
  import opened Schedules
  import opened Runs
  import opened Histories
  import opened ChainTheorems
  import ChainVerify
  import StoreSpecs

  /** Whatever has happened to the store, the chain the server sends verifies. */
  lemma AnyHistoryVerifies(repo: string, sha: Sha, start: Sys, past: seq<Happening>, s: Sys, b: string, upto: nat,
      xs: seq<ChainVerify.Entry>)
    requires Start(Env(repo, StoreSpecs.Digester(sha)), start) && NeverEmpty(sha)
    requires History(Env(repo, StoreSpecs.Digester(sha)), sha, start, past, s)
    requires IsChain(s.db, 1, upto, xs)
    ensures ChainVerify.Genuine(sha, repo, b, GENESIS_HASH, false, xs)
  {
    hide SysOk, History, Start, LogOk, ChainOk, StoreSpecs.Sound, IsChain, NeverEmpty, ChainVerify.Genuine, PrevHash;
    var e := Env(repo, StoreSpecs.Digester(sha));
    StartIsOk(e, sha, start);
    HistoryKeeps(e, sha, start, past, s);
    SystemHasMain(e, sha, s);
    NothingBeforeOne(s.db, b);
    ChainIsGenuine(repo, sha, s.db, b, 1, upto, xs, false);
  }

  /**
   * A client stores the hash of a commit of its branch at one moment and pulls at any later one
   * before a purge takes the branch: its anchor is unchanged, every link is genuine, and at a
   * hashed head it stores that head's hash.
   */
  lemma AnyLaterPullAccepts(repo: string, sha: Sha, start: Sys, first: seq<Happening>, s: Sys, second: seq<Happening>,
      o: Sys, b: string, s0: nat, s1: nat, xs: seq<ChainVerify.Entry>)
    requires Start(Env(repo, StoreSpecs.Digester(sha)), start) && NeverEmpty(sha)
    requires History(Env(repo, StoreSpecs.Digester(sha)), sha, start, first, s)
    requires History(Env(repo, StoreSpecs.Digester(sha)), sha, s, second, o)
    requires b in s.db.branches && Spared(Env(repo, StoreSpecs.Digester(sha)), sha, s, second, b)
    requires 0 < s0 <= s.db.branches[b].head && CommitOn(s.db, b, s0)
    requires s.db.commits[s0].hash.Some? && s0 <= s1 && IsChain(o.db, s0, s1, xs)
    ensures var stored := s.db.commits[s0].hash.value;
      && xs != [] && xs[0].hash == Some(stored)
      && ChainVerify.Genuine(sha, repo, b, ChainVerify.PullStart(stored, xs), true, xs[1..])
      && (CommitOn(o.db, b, s1) && o.db.commits[s1].hash.Some? ==>
            ChainVerify.PullHash(b, stored, xs) == o.db.commits[s1].hash.value)
  {
    hide SysOk, History, Spared, Start, LogOk, ChainOk, StoreSpecs.Sound, IsChain, NeverEmpty, ChainVerify.Genuine,
      PrevHash, RowsAt;
    var e := Env(repo, StoreSpecs.Digester(sha));
    StartIsOk(e, sha, start);
    HistoryKeeps(e, sha, start, first, s);
    HistoryKeeps(e, sha, s, second, o);
    SystemHasMain(e, sha, s);
    SystemHasMain(e, sha, o);
    HistorySpares(e, sha, s, second, o, b);
    HonestPull(repo, sha, s.db, o.db, b, s0, s1, xs);
  }
}
