/** Completeness and soundness of the client's chain verification. */
module ChainTheorems {
  import opened Wrappers
  import opened Strings
  import opened Timestamps
  import opened CommitHashing
  import opened Tables
  import opened Transactions
  import opened Resolving
  import opened Views
  import opened ChainVerify
  import opened Effects
  import DocStore
  import StoreSpecs

  // ---------------------------------------------------------------------------
  // The chain a store sends
  // ---------------------------------------------------------------------------

  /** The entry GetChain builds for commit n, its files in some order. */
  ghost predicate EntryIs(r: Repo, n: nat, x: Entry) {
    && n in r.commits
    && (var c := r.commits[n];
        && x == Entry(n, c.branch, c.author, c.message, c.createdAt, c.hash, x.files)
        && DistinctPaths(x.files) && ToMap(x.files) == Contents(r.docs, RowsAt(r.files, c.branch, n)))
  }

  /** The entries of the commits with from <= sequence <= to, in sequence order. */
  ghost predicate IsChain(r: Repo, from: nat, upto: nat, xs: seq<Entry>)
    decreases upto
  {
    if upto < from then xs == []
    else if upto in r.commits then
      |xs| > 0 && EntryIs(r, upto, xs[|xs| - 1])
        && if upto == 0 then |xs| == 1 else IsChain(r, from, upto - 1, xs[..|xs| - 1])
    else if upto == 0 then xs == []
    else IsChain(r, from, upto - 1, xs)
  }

  lemma ChainNext(r: Repo, from: nat, n: nat, xs: seq<Entry>, x: Entry)
    requires 0 < from <= n && IsChain(r, from, n - 1, xs)
    ensures n !in r.commits ==> IsChain(r, from, n, xs)
    ensures EntryIs(r, n, x) ==> IsChain(r, from, n, xs + [x])
  {
    hide Contents, DistinctPaths, ToMap, RowsAt;
    assert (xs + [x])[..|xs|] == xs;
  }

  method EntryAt(store: DocStore.DocStore, n: nat) returns (x: Entry)
    requires n in store.commits
    ensures EntryIs(store.State(), n, x)
  {
    hide Contents, DistinctPaths, ToMap, ToChanges, RowsAt;
    var c := store.commits[n];
    var rows := Range(RowsAt(store.files, c.branch, n));
    var files := store.HashFiles(rows);
    x := Entry(n, c.branch, c.author, c.message, c.createdAt, c.hash, files);
  }

  lemma NoChain(r: Repo, from: nat, upto: nat)
    ensures upto < from ==> IsChain(r, from, upto, [])
  {
  }

  method GetChain(store: DocStore.DocStore, from: nat, upto: nat) returns (entries: seq<Entry>)
    requires 0 < from
    ensures IsChain(store.State(), from, upto, entries)
  {
    hide IsChain, EntryIs;
    entries := [];
    NoChain(store.State(), from, upto);
    if upto < from {
      return;
    }
    NoChain(store.State(), from, from - 1);
    for n := from to upto + 1
      invariant IsChain(store.State(), from, n - 1, entries)
    {
      var x := Entry(0, "", "", "", Timestamp(0, 0, 0, 0, 0, 0, 0), None, []);
      if n in store.commits {
        x := EntryAt(store, n);
        ChainNext(store.State(), from, n, entries, x);
        entries := entries + [x];
      } else {
        ChainNext(store.State(), from, n, entries, x);
      }
    }
  }

  /** The entry of a commit has its columns, and each path of its rows once with its content hash. */
  ghost predicate Lists(r: Repo, x: Entry) {
    var n := x.sequence;
    && n in r.commits && n in r.files && x.branch == r.commits[n].branch && x.author == r.commits[n].author
    && x.message == r.commits[n].message && x.createdAt == r.commits[n].createdAt && x.hash == r.commits[n].hash
    && (forall i, j :: 0 <= i < j < |x.files| ==> x.files[i].path != x.files[j].path)
    && (forall i :: 0 <= i < |x.files| ==>
          && x.files[i].path in r.files[n].changes
          && x.files[i].contentHash == HashesAt(r.docs, r.files[n].changes)[x.files[i].path])
    && (forall p :: p in r.files[n].changes ==> exists i :: 0 <= i < |x.files| && x.files[i].path == p)
  }

  lemma DescribedKeys(files: seq<File>, m: map<string, string>)
    requires Describes(files, m)
    ensures forall i :: 0 <= i < |files| ==> files[i].path in m.Keys && m[files[i].path] == files[i].contentHash
    ensures forall p :: p in m.Keys ==> exists i :: 0 <= i < |files| && files[i].path == p
  {
  }

  lemma EntryLists(r: Repo, n: nat, x: Entry)
    requires LogOk(r) && EntryIs(r, n, x)
    ensures Lists(r, x) && x.sequence == n
  {
    hide ToMap, Contents, HashesAt, Describes;
    ToMapDescribes(x.files);
    HashesAtAre(r.docs, r.files[n].changes);
    assert RowsAt(r.files, r.commits[n].branch, n) == r.files[n].changes;
    var m := HashesAt(r.docs, r.files[n].changes);
    assert Describes(x.files, m);
    DescribedKeys(x.files, m);
    assert forall p :: p in r.files[n].changes <==> p in m.Keys;
  }

  /** The server's reply: the commits of the range, each once, in sequence order, as they are stored. */
  lemma {:induction false} ChainLists(r: Repo, from: nat, upto: nat, xs: seq<Entry>)
    requires LogOk(r) && IsChain(r, from, upto, xs)
    ensures forall i :: 0 <= i < |xs| ==> Lists(r, xs[i]) && from <= xs[i].sequence <= upto
    ensures forall i, j :: 0 <= i < j < |xs| ==> xs[i].sequence < xs[j].sequence
    ensures forall n :: n in r.commits && from <= n <= upto ==> exists i :: 0 <= i < |xs| && xs[i].sequence == n
    decreases upto
  {
    hide Lists, EntryIs, LogOk;
    if from <= upto {
      var last := |xs| - 1;
      var before := if upto in r.commits then xs[..last] else xs;
      if upto > 0 {
        ChainLists(r, from, upto - 1, before);
      }
      if upto in r.commits {
        EntryLists(r, upto, xs[last]);
        assert xs[last].sequence == upto;
        forall n | n in r.commits && from <= n <= upto ensures exists i :: 0 <= i < |xs| && xs[i].sequence == n {
          if n < upto {
            var i :| 0 <= i < |before| && before[i].sequence == n;
            assert xs[i].sequence == n;
          }
        }
      }
    }
  }

  /** A hash function that, like SHA-256 in hex, never returns the empty string. */
  ghost predicate NeverEmpty(sha: Sha) { forall s: string :: sha(s) != "" }

  lemma PrevSkips(r: Repo, b: string, n: nat)
    requires n !in r.commits
    ensures PrevHash(r.commits, b, n + 1) == PrevHash(r.commits, b, n)
  {
  }

  lemma EntryLinks(repo: string, sha: Sha, r: Repo, b: string, n: nat, x: Entry)
    requires ChainOk(Env(repo, StoreSpecs.Digester(sha)), r) && NeverEmpty(sha) && EntryIs(r, n, x)
    ensures PrevNext(b, PrevHash(r.commits, b, n), x) == PrevHash(r.commits, b, n + 1)
    ensures Hashed(b, x) ==>
        DistinctPaths(x.files) && x.hash.value == Digest(sha, RecordOf(repo, PrevHash(r.commits, b, n), x))
  {
    var e := Env(repo, StoreSpecs.Digester(sha));
    if x.hash.Some? {
      assert x.hash.value == e.digest(RecordAt(e, r, n));
    }
  }

  /** Chain lookups agree: the client's previous hash is the server's. */
  lemma {:induction false} ChainIsGenuine(repo: string, sha: Sha, r: Repo, b: string, from: nat, upto: nat,
      xs: seq<Entry>, trusted: bool)
    requires LogOk(r) && ChainOk(Env(repo, StoreSpecs.Digester(sha)), r) && NeverEmpty(sha)
    requires 0 < from <= upto + 1 && IsChain(r, from, upto, xs)
    ensures PrevAfter(b, PrevHash(r.commits, b, from), xs) == PrevHash(r.commits, b, upto + 1)
    ensures Genuine(sha, repo, b, PrevHash(r.commits, b, from), trusted, xs)
    decreases upto
  {
    hide LogOk, ChainOk, EntryIs, Digest, RecordOf, PrevHash;
    if from <= upto {
      if upto in r.commits {
        ChainIsGenuine(repo, sha, r, b, from, upto - 1, xs[..|xs| - 1], trusted);
        EntryLinks(repo, sha, r, b, upto, xs[|xs| - 1]);
      } else {
        ChainIsGenuine(repo, sha, r, b, from, upto - 1, xs, trusted);
        PrevSkips(r, b, upto);
      }
    }
  }

  lemma NothingBeforeOne(r: Repo, b: string)
    requires LogOk(r)
    ensures PrevHash(r.commits, b, 1) == GENESIS_HASH
  {
    assert PrevSeq(r.commits, b, 0) == None;
  }

  /**
   * Verify accepts every sound store, whatever its branches, deletions and commits from before
   * the hash chain.
   */
  method VerifyServer(store: DocStore.DocStore, b: string, head: nat) returns (err: Option<nat>)
    requires store.Valid() && NeverEmpty(store.sha)
    ensures err.None?
  {
    var entries := GetChain(store, 1, head);
    ghost var texts;
    ChainIsGenuine(store.repo, store.sha, store.State(), b, 1, head, entries, false);
    assert PrevHash(store.commits, b, 1) == GENESIS_HASH by { NothingBeforeOne(store.State(), b); }
    err, texts := Verify(store.sha, store.repo, b, entries);
  }

  // ---------------------------------------------------------------------------
  // Pulling from an honest server
  // ---------------------------------------------------------------------------

  lemma {:induction false} ChainSplit(r: Repo, from: nat, upto: nat, xs: seq<Entry>)
    requires from <= upto && from in r.commits && IsChain(r, from, upto, xs) && 0 < from
    ensures xs != [] && EntryIs(r, from, xs[0]) && IsChain(r, from + 1, upto, xs[1..])
    decreases upto
  {
    hide EntryIs;
    if upto == from {
      assert IsChain(r, from, from - 1, xs[..|xs| - 1]);
    } else if upto in r.commits {
      ChainSplit(r, from, upto - 1, xs[..|xs| - 1]);
      assert xs[..|xs| - 1][1..] == xs[1..][..|xs[1..]| - 1];
    } else {
      ChainSplit(r, from, upto - 1, xs);
    }
  }

  lemma PrevIsOwn(r: Repo, b: string, n: nat)
    requires CommitOn(r, b, n) && r.commits[n].hash.Some? && r.commits[n].hash.value != ""
    ensures PrevHash(r.commits, b, n + 1) == r.commits[n].hash.value
  {
  }

  lemma HashesNonempty(repo: string, sha: Sha, r: Repo)
    requires ChainOk(Env(repo, StoreSpecs.Digester(sha)), r) && NeverEmpty(sha)
    ensures forall n :: n in r.commits && r.commits[n].hash.Some? ==> r.commits[n].hash.value != ""
  {
    var e := Env(repo, StoreSpecs.Digester(sha));
    forall n | n in r.commits && r.commits[n].hash.Some? ensures r.commits[n].hash.value != "" {
      assert r.commits[n].hash.value == e.digest(RecordAt(e, r, n));
    }
  }

  /**
   * A client that stored the hash of commit s0 of its branch pulls from a store that has the
   * branch's log up to s0 as it was, whatever became of other branches: the anchor is unchanged,
   * every link is genuine, and the hash stored next is the
   * one commits after s1 chain to; at a hashed head that is the head's own hash.
   */
  lemma HonestPull(repo: string, sha: Sha, earlier: Repo, now: Repo, b: string, s0: nat, s1: nat, xs: seq<Entry>)
    requires LogOk(earlier) && LogOk(now) && ChainOk(Env(repo, StoreSpecs.Digester(sha)), now) && NeverEmpty(sha)
    requires SameLogUpTo(earlier, now, b, s0)
    requires CommitOn(earlier, b, s0) && earlier.commits[s0].hash.Some?
    requires 0 < s0 <= s1 && IsChain(now, s0, s1, xs)
    ensures var stored := earlier.commits[s0].hash.value;
      && xs != [] && xs[0].hash == Some(stored)
      && Genuine(sha, repo, b, PullStart(stored, xs), true, xs[1..])
      && PullHash(b, stored, xs) == PrevHash(now.commits, b, s1 + 1)
      && (CommitOn(now, b, s1) && now.commits[s1].hash.Some? ==> PullHash(b, stored, xs) == now.commits[s1].hash.value)
  {
    hide LogOk, Digest, RecordOf, PrevHash, IsChain, Genuine;
    var stored := earlier.commits[s0].hash.value;
    assert CommitOn(now, b, s0) && now.commits[s0] == earlier.commits[s0];
    ChainSplit(now, s0, s1, xs);
    HashesNonempty(repo, sha, now);
    PrevIsOwn(now, b, s0);
    ChainIsGenuine(repo, sha, now, b, s0 + 1, s1, xs[1..], true);
    if CommitOn(now, b, s1) && now.commits[s1].hash.Some? {
      PrevIsOwn(now, b, s1);
    }
  }

  // ---------------------------------------------------------------------------
  // Pulling when the stored hash is not the branch's own
  // ---------------------------------------------------------------------------

  function FirstOn(b: string, xs: seq<Entry>): Option<Entry> {
    if xs == [] then None
    else
      var before := FirstOn(b, xs[..|xs| - 1]);
      if before.None? && xs[|xs| - 1].branch == b then Some(xs[|xs| - 1]) else before
  }

  /** The text hashed for x chained to p, and the one chained to q, do not collide. */
  ghost predicate NoClash(sha: Sha, repo: string, p: string, q: string, x: Entry) {
    var s, t := Encode(RecordOf(repo, p, x)), Encode(RecordOf(repo, q, x));
    sha(s) == sha(t) ==> s == t
  }

  /** The encoding after the line of the previous hash. */
  ghost function Tail(r: Record): string {
    Cat((Header("", r.sequence, r.repo, r.branch, r.author, r.message, r.createdAt) + Lines(SortedFiles(r.files)))[1..])
  }

  lemma EncodeTail(r: Record)
    ensures Encode(r) == r.prevHash + "\n" + Tail(r)
  {
    hide Lines, SortedFiles, Format, Decimal;
    var lines := Header(r.prevHash, r.sequence, r.repo, r.branch, r.author, r.message, r.createdAt)
                 + Lines(SortedFiles(r.files));
    assert lines[0] == r.prevHash;
    assert lines[1..] == (Header("", r.sequence, r.repo, r.branch, r.author, r.message, r.createdAt)
                          + Lines(SortedFiles(r.files)))[1..];
  }

  /** The texts hashed for the entry chained to p, and to q, do not collide. */
  ghost predicate TellsApart(sha: Sha, repo: string, p: string, q: string, first: Option<Entry>) {
    first.Some? ==> NoClash(sha, repo, p, q, first.value)
  }

  predicate HashedFirst(b: string, xs: seq<Entry>) {
    var first := FirstOn(b, xs);
    first.Some? && first.value.hash.Some?
  }

  lemma SameTail(r: Record, s: Record)
    requires s == r.(prevHash := s.prevHash)
    ensures Tail(r) == Tail(s)
  {
  }

  /** Apart from collisions an entry has one hash for each hash it may be chained to. */
  lemma PrevDetermined(sha: Sha, repo: string, p: string, q: string, x: Entry)
    requires NoClash(sha, repo, p, q, x)
    ensures Digest(sha, RecordOf(repo, p, x)) == Digest(sha, RecordOf(repo, q, x)) <==> p == q
  {
    hide Encode, Tail;
    var s, t := RecordOf(repo, p, x), RecordOf(repo, q, x);
    EncodeTail(s);
    EncodeTail(t);
    assert Tail(s) == Tail(t) by { SameTail(s, t); }
    if Encode(s) == Encode(t) {
      assert |p| == |q|;
      assert p == Encode(s)[..|p|] && q == Encode(t)[..|q|];
    }
  }

  ghost predicate LinksTo(sha: Sha, repo: string, p: string, first: Option<Entry>) {
    first.None? || first.value.hash.None? || first.value.hash.value == Digest(sha, RecordOf(repo, p, first.value))
  }

  /** A chain genuine from q is genuine from p exactly when its first entry links to p. */
  lemma {:induction false} GenuineFrom(sha: Sha, repo: string, b: string, p: string, q: string, xs: seq<Entry>)
    requires Genuine(sha, repo, b, q, true, xs)
    ensures Genuine(sha, repo, b, p, true, xs) <==> LinksTo(sha, repo, p, FirstOn(b, xs))
    ensures FirstOn(b, xs).Some? ==> PrevAfter(b, p, xs) == PrevAfter(b, q, xs)
    ensures FirstOn(b, xs).None? ==> PrevAfter(b, p, xs) == p && PrevAfter(b, q, xs) == q
    ensures FirstOn(b, xs).Some? && FirstOn(b, xs).value.hash.Some? ==>
      FirstOn(b, xs).value.hash.value == Digest(sha, RecordOf(repo, q, FirstOn(b, xs).value))
  {
    hide Digest, RecordOf, DistinctPaths;
    if xs != [] {
      var before := xs[..|xs| - 1];
      GenuineFrom(sha, repo, b, p, q, before);
      AlwaysAnchored(b, before);
    }
  }

  /**
   * A client that holds any hash pulls from an honest server. Given the anchor entry of s0 has that
   * hash, the pull accepts if and only if the branch's next commit has no hash, or there is none,
   * or the hash started from is the one the branch's next commit is chained to.
   */
  lemma HonestPullIff(repo: string, sha: Sha, r: Repo, b: string, stored: string, s0: nat, s1: nat, xs: seq<Entry>)
    requires LogOk(r) && ChainOk(Env(repo, StoreSpecs.Digester(sha)), r) && NeverEmpty(sha)
    requires s0 in r.commits && 0 < s0 <= s1 && IsChain(r, s0, s1, xs)
    requires r.commits[s0].hash.Some? ==> r.commits[s0].hash.value == stored
    requires xs != []
    requires TellsApart(sha, repo, PullStart(stored, xs), PrevHash(r.commits, b, s0 + 1), FirstOn(b, xs[1..]))
    ensures Accepts(sha, repo, b, stored, xs) <==>
      || FirstOn(b, xs[1..]).None? || FirstOn(b, xs[1..]).value.hash.None?
      || (if r.commits[s0].hash.None? then GENESIS_HASH else stored) == PrevHash(r.commits, b, s0 + 1)
  {
    hide LogOk, ChainOk, Digest, RecordOf, PrevHash, IsChain, Genuine, FirstOn, NoClash;
    ChainSplit(r, s0, s1, xs);
    ChainIsGenuine(repo, sha, r, b, s0 + 1, s1, xs[1..], true);
    var start, prev, first := PullStart(stored, xs), PrevHash(r.commits, b, s0 + 1), FirstOn(b, xs[1..]);
    GenuineFrom(sha, repo, b, start, prev, xs[1..]);
    if first.Some? && first.value.hash.Some? {
      PrevDetermined(sha, repo, start, prev, first.value);
    }
  }

  lemma {:induction false} ChainPaths(r: Repo, from: nat, upto: nat, xs: seq<Entry>)
    requires IsChain(r, from, upto, xs)
    ensures forall x :: x in xs ==> DistinctPaths(x.files)
    decreases upto
  {
    hide DistinctPaths;
    if from <= upto {
      if upto in r.commits {
        assert forall x :: x in xs ==> x in xs[..|xs| - 1] || x == xs[|xs| - 1];
        if upto > 0 {
          ChainPaths(r, from, upto - 1, xs[..|xs| - 1]);
        }
      } else if upto > 0 {
        ChainPaths(r, from, upto - 1, xs);
      }
    }
  }

  /** The branch has no commit up to n. */
  predicate NothingYet(r: Repo, b: string, n: nat) { forall m: nat :: m <= n ==> !CommitOn(r, b, m) }

  lemma NothingYetIsGenesis(r: Repo, b: string, n: nat)
    requires NothingYet(r, b, n)
    ensures PrevHash(r.commits, b, n + 1) == GENESIS_HASH
  {
    PrevSeqIsMax(r.commits, b, n + 1);
    assert PrevSeq(r.commits, b, n + 1).Some? ==> CommitOn(r, b, PrevSeq(r.commits, b, n + 1).value);
  }

  lemma ChainOfNothing(r: Repo, from: nat, upto: nat, xs: seq<Entry>)
    requires upto < from && IsChain(r, from, upto, xs)
    ensures xs == []
  {
  }

  ghost predicate CommitWithin(r: Repo, b: string, lo: nat, hi: nat) {
    exists m: nat :: lo <= m <= hi && CommitOn(r, b, m)
  }

  /** The entries of a chain hold one of the branch exactly when the store has a commit of it there. */
  lemma {:induction false} FirstOnIff(r: Repo, b: string, from: nat, upto: nat, xs: seq<Entry>)
    requires IsChain(r, from, upto, xs) && 0 < from
    ensures FirstOn(b, xs).Some? <==> CommitWithin(r, b, from, upto)
    ensures FirstOn(b, xs).Some? ==>
      exists m :: from <= m <= upto && CommitOn(r, b, m) && r.commits[m].hash == FirstOn(b, xs).value.hash
    decreases upto
  {
    if from <= upto {
      var before := if upto in r.commits then xs[..|xs| - 1] else xs;
      FirstOnIff(r, b, from, upto - 1, before);
      if upto in r.commits && r.commits[upto].branch == b {
        assert CommitOn(r, b, upto);
      }
    }
  }

  lemma HashedFirstIs(b: string, xs: seq<Entry>)
    ensures HashedFirst(b, xs) <==> FirstOn(b, xs).Some? && FirstOn(b, xs).value.hash.Some?
  {
  }

  lemma FirstOfNothing(b: string)
    ensures !HashedFirst(b, [])
  {
  }

  /**
   * A client up to date with another branch checks out a new one and, without committing to it,
   * pulls from an honest server. The pull fails if and only if the branch has a hashed commit by
   * then: the first commit of a branch starts a chain of its own, and the client expects it to be
   * chained to the commit it came from.
   */
  method PullNewBranch(client: Client, ghost r: Repo, b: string, s0: nat, s1: nat, reply: (nat, nat) -> seq<Entry>,
      ghost xs: seq<Entry>)
    returns (err: Option<nat>)
    requires LogOk(r) && ChainOk(Env(client.repo, StoreSpecs.Digester(client.sha)), r) && NeverEmpty(client.sha)
    requires s0 in r.commits && r.commits[s0].hash == Some(client.commitHash) && 0 < s0 <= s1
    requires client.commitHash != "" && client.commitHash != GENESIS_HASH && NothingYet(r, b, s0)
    requires IsChain(r, s0, s1, xs) && xs != [] && reply(s0, s1) == xs
    requires TellsApart(client.sha, client.repo, client.commitHash, GENESIS_HASH, FirstOn(b, xs[1..]))
    modifies client
    ensures client.sequence == s1 && (err.Some? <==> HashedFirst(b, xs[1..]))
    ensures (forall n :: CommitOn(r, b, n) ==> r.commits[n].hash.Some?) ==>
      (err.Some? <==> CommitWithin(r, b, s0 + 1, s1))
  {
    hide LogOk, ChainOk, Checked, Genuine, HashedFirst, FirstOn, CommitWithin, TellsApart, IsChain, PullAccepts,
      PrevHash;
    ghost var stored := client.commitHash;
    client.CheckoutNew(b, s0);
    ghost var texts;
    err, texts := client.Pull(s1, reply, false);
    ChainSplit(r, s0, s1, xs);
    ChainPaths(r, s0, s1, xs);
    NothingYetIsGenesis(r, b, s0);
    FirstOnIff(r, b, s0 + 1, s1, xs[1..]);
    HashedFirstIs(b, xs[1..]);
    HonestPullIff(client.repo, client.sha, r, b, stored, s0, s1, xs);
    if s0 == s1 {
      ChainOfNothing(r, s0 + 1, s1, xs[1..]);
      assert !HashedFirst(b, []) by { FirstOfNothing(b); }
    } else if err.None? {
      AcceptedIsGenuine(client.sha, texts, client.repo, b, stored, xs);
    }
  }

  // ---------------------------------------------------------------------------
  // Soundness
  // ---------------------------------------------------------------------------

  /** The entries of one branch. */
  function OnBranch(b: string, xs: seq<Entry>): seq<Entry> {
    if xs == [] then []
    else
      var before, x := OnBranch(b, xs[..|xs| - 1]), xs[|xs| - 1];
      if x.branch == b then before + [x] else before
  }

  /** Every entry but the first matches, chained to the entry before it. */
  ghost predicate Linked(sha: Sha, texts: set<string>, repo: string, xs: seq<Entry>) {
    && (forall i :: 0 <= i < |xs| ==> xs[i].hash.Some?)
    && (forall i :: 0 < i < |xs| ==> Matches(sha, texts, repo, xs[i - 1].hash.value, xs[i]))
  }

  lemma LinkedNothing(sha: Sha, texts: set<string>, repo: string)
    ensures Linked(sha, texts, repo, [])
  {
  }

  lemma LinkedSnoc(sha: Sha, texts: set<string>, repo: string, zs: seq<Entry>, x: Entry)
    requires Linked(sha, texts, repo, zs) && x.hash.Some?
    requires zs != [] ==> Matches(sha, texts, repo, zs[|zs| - 1].hash.value, x)
    ensures Linked(sha, texts, repo, zs + [x])
  {
    hide Matches;
  }

  /** An accepted list whose entries of the branch are all hashed is linked. */
  lemma {:induction false} AcceptedIsLinked(sha: Sha, texts: set<string>, repo: string, b: string, xs: seq<Entry>)
    requires Checked(sha, texts, repo, b, GENESIS_HASH, false, xs)
    requires forall x :: x in OnBranch(b, xs) ==> x.hash.Some?
    ensures var zs := OnBranch(b, xs);
      && Linked(sha, texts, repo, zs) && (Anchored(b, false, xs) <==> zs != [])
      && PrevAfter(b, GENESIS_HASH, xs) == if zs == [] then GENESIS_HASH else zs[|zs| - 1].hash.value
  {
    hide Matches, Linked;
    if xs == [] {
      LinkedNothing(sha, texts, repo);
    } else {
      var before, x := xs[..|xs| - 1], xs[|xs| - 1];
      assert OnBranch(b, xs) == if x.branch == b then OnBranch(b, before) + [x] else OnBranch(b, before);
      AcceptedIsLinked(sha, texts, repo, b, before);
      if x.branch == b {
        assert x in OnBranch(b, xs);
        LinkedSnoc(sha, texts, repo, OnBranch(b, before), x);
      }
    }
  }

  /** No two of these texts have one hash. */
  ghost predicate NoCollision(sha: Sha, texts: set<string>) {
    forall s, t :: s in texts && t in texts && sha(s) == sha(t) ==> s == t
  }

  /** Fields on one line, a valid time, hex content hashes. */
  ghost predicate CleanEntry(repo: string, x: Entry) {
    && NoNewline(repo) && NoNewline(x.branch) && NoNewline(x.author) && x.createdAt.Valid() && CleanFiles(x.files)
    && (x.hash.Some? ==> NoNewline(x.hash.value))
  }

  /** The same entry, with the files in any order. */
  ghost predicate SameEntry(x: Entry, y: Entry) {
    x.(files := []) == y.(files := []) && multiset(x.files) == multiset(y.files)
  }

  lemma SortedClean(sorted: seq<File>, files: seq<File>)
    requires IsSortOf(sorted, files) && CleanFiles(files)
    ensures CleanFiles(sorted)
  {
    forall i | 0 <= i < |sorted| ensures NoNewline(sorted[i].path) && ContentHash(sorted[i].contentHash) {
      assert sorted[i] in multiset(files);
      var j :| 0 <= j < |files| && files[j] == sorted[i];
    }
  }

  /** One hash, two entries: they are the same, and so is what they are chained to. */
  lemma SameHashSameEntry(sha: Sha, texts: set<string>, repo: string, p: string, x: Entry, q: string, y: Entry)
    requires NoCollision(sha, texts) && Matches(sha, texts, repo, p, x) && Matches(sha, texts, repo, q, y)
    requires CleanEntry(repo, x) && CleanEntry(repo, y) && NoNewline(p) && NoNewline(q)
    requires x.hash == y.hash
    ensures SameEntry(x, y) && p == q
  {
    hide Bytes;
    var s :| IsSortOf(s, x.files) && Bytes(HeaderOf(repo, p, x), s) in texts
      && x.hash == Some(sha(Bytes(HeaderOf(repo, p, x), s)));
    var t :| IsSortOf(t, y.files) && Bytes(HeaderOf(repo, q, y), t) in texts
      && y.hash == Some(sha(Bytes(HeaderOf(repo, q, y), t)));
    SortedClean(s, x.files);
    SortedClean(t, y.files);
    BytesInjective(HeaderOf(repo, p, x), s, HeaderOf(repo, q, y), t);
  }

  /** Entry j counted from the end. */
  function Back(xs: seq<Entry>, j: nat): Entry
    requires j < |xs|
  {
    xs[|xs| - 1 - j]
  }

  /** Counted from the end, the entries have equal hashes, and before the last pair are the same. */
  ghost predicate AgreeBack(xs: seq<Entry>, ys: seq<Entry>) {
    && (forall j: nat :: j < |xs| && j < |ys| ==> Back(xs, j).hash == Back(ys, j).hash)
    && (forall j: nat :: j < |xs| - 1 && j < |ys| - 1 ==> SameEntry(Back(xs, j), Back(ys, j)))
  }

  lemma AgreeSnoc(xs: seq<Entry>, ys: seq<Entry>, x: Entry, y: Entry)
    requires AgreeBack(xs, ys) && x.hash == y.hash && (xs != [] && ys != [] ==> SameEntry(x, y))
    ensures AgreeBack(xs + [x], ys + [y])
  {
    hide SameEntry;
    forall j: nat | 0 < j < |xs| + 1 ensures Back(xs + [x], j) == Back(xs, j - 1) {
    }
    forall j: nat | 0 < j < |ys| + 1 ensures Back(ys + [y], j) == Back(ys, j - 1) {
    }
  }

  lemma AgreeNothing(xs: seq<Entry>, ys: seq<Entry>)
    requires xs == [] || ys == []
    ensures AgreeBack(xs, ys)
  {
  }

  lemma CleanHash(repo: string, x: Entry)
    requires CleanEntry(repo, x)
    ensures x.hash.Some? ==> NoNewline(x.hash.value)
  {
  }

  lemma {:induction false} LinkedAgree(sha: Sha, texts: set<string>, repo: string, xs: seq<Entry>, ys: seq<Entry>)
    requires Linked(sha, texts, repo, xs) && Linked(sha, texts, repo, ys) && NoCollision(sha, texts)
    requires (forall x :: x in xs ==> CleanEntry(repo, x)) && (forall y :: y in ys ==> CleanEntry(repo, y))
    requires xs != [] && ys != [] && xs[|xs| - 1].hash == ys[|ys| - 1].hash
    ensures AgreeBack(xs, ys)
    decreases |xs|
  {
    hide Matches, CleanEntry, SameEntry, NoCollision, AgreeBack;
    var m, n := |xs| - 1, |ys| - 1;
    assert xs == xs[..m] + [xs[m]] && ys == ys[..n] + [ys[n]];
    if m > 0 && n > 0 {
      assert xs[m] in xs && xs[m - 1] in xs && ys[n] in ys && ys[n - 1] in ys;
      CleanHash(repo, xs[m - 1]);
      CleanHash(repo, ys[n - 1]);
      SameHashSameEntry(sha, texts, repo, xs[m - 1].hash.value, xs[m], ys[n - 1].hash.value, ys[n]);
      LinkedAgree(sha, texts, repo, xs[..m], ys[..n]);
    } else {
      AgreeNothing(xs[..m], ys[..n]);
    }
    AgreeSnoc(xs[..m], ys[..n], xs[m], ys[n]);
  }

  /**
   * Two lists that Verify accepts for a branch, fully hashed and with the same tip hash, agree on
   * every entry after the later anchor: same fields, same previous hash and same files. The only
   * assumption on the hash is that the texts hashed by the two runs do not collide.
   */
  lemma VerifyIsSound(sha: Sha, texts: set<string>, repo: string, b: string, xs: seq<Entry>, ys: seq<Entry>)
    requires Checked(sha, texts, repo, b, GENESIS_HASH, false, xs)
      && Checked(sha, texts, repo, b, GENESIS_HASH, false, ys)
    requires NoCollision(sha, texts)
    requires forall x :: x in OnBranch(b, xs) ==> x.hash.Some? && CleanEntry(repo, x)
    requires forall y :: y in OnBranch(b, ys) ==> y.hash.Some? && CleanEntry(repo, y)
    ensures var ps, qs := OnBranch(b, xs), OnBranch(b, ys);
      ps != [] && qs != [] && ps[|ps| - 1].hash == qs[|qs| - 1].hash ==> AgreeBack(ps, qs)
  {
    hide Checked, Linked, CleanEntry, SameEntry, NoCollision, OnBranch, AgreeBack;
    var ps, qs := OnBranch(b, xs), OnBranch(b, ys);
    AcceptedIsLinked(sha, texts, repo, b, xs);
    AcceptedIsLinked(sha, texts, repo, b, ys);
    if ps != [] && qs != [] && ps[|ps| - 1].hash == qs[|qs| - 1].hash {
      LinkedAgree(sha, texts, repo, ps, qs);
    }
  }
}
