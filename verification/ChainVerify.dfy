/**
 * The client's verification of the hash chain (internal/cli/app.go) and the chain the server
 * sends (GetChain of internal/store/store.go). A server's entries are arbitrary here: only the
 * completeness results are about chains of a sound store.
 */
module ChainVerify {
  import opened Wrappers
  import opened Strings
  import opened Timestamps
  import opened CommitHashing
  import opened Tables

  datatype Entry = Entry(
    sequence: nat, branch: string, author: string, message: string, createdAt: Timestamp,
    hash: Option<string>, files: seq<File>)

  function HeaderOf(repo: string, prev: string, x: Entry): Record {
    Record(prev, x.sequence, repo, x.branch, x.author, x.message, x.createdAt, map[])
  }

  function RecordOf(repo: string, prev: string, x: Entry): Record { HeaderOf(repo, prev, x).(files := ToMap(x.files)) }

  /** The stored hash is that of the entry chained to prev; texts are the byte strings hashed on the way. */
  ghost predicate Matches(sha: Sha, texts: set<string>, repo: string, prev: string, x: Entry) {
    exists sorted ::
      && IsSortOf(sorted, x.files) && Bytes(HeaderOf(repo, prev, x), sorted) in texts
      && x.hash == Some(sha(Bytes(HeaderOf(repo, prev, x), sorted)))
  }

  predicate Hashed(b: string, x: Entry) { x.branch == b && x.hash.Some? }

  /** The previous hash after an entry: other branches do not count, a missing hash restarts at Genesis. */
  function PrevNext(b: string, prev: string, x: Entry): string {
    if x.branch != b then prev else if x.hash.None? then GENESIS_HASH else x.hash.value
  }

  function PrevAfter(b: string, prev: string, xs: seq<Entry>): string {
    if xs == [] then prev else PrevNext(b, PrevAfter(b, prev, xs[..|xs| - 1]), xs[|xs| - 1])
  }

  /** Whether the chain has an anchor: a trusted start, or a hashed entry of the branch. */
  predicate Anchored(b: string, trusted: bool, xs: seq<Entry>) {
    if xs == [] then trusted else Anchored(b, trusted, xs[..|xs| - 1]) || Hashed(b, xs[|xs| - 1])
  }

  /** Every hashed entry of the branch that has an anchor before it matches. */
  ghost predicate Checked(sha: Sha, texts: set<string>, repo: string, b: string, prev: string, trusted: bool,
      xs: seq<Entry>)
  {
    xs == [] ||
    var before, x := xs[..|xs| - 1], xs[|xs| - 1];
    && Checked(sha, texts, repo, b, prev, trusted, before)
    && (Hashed(b, x) && Anchored(b, trusted, before) ==> Matches(sha, texts, repo, PrevAfter(b, prev, before), x))
  }

  /** The same for entries that list each path once, in terms of the chain digest. */
  ghost predicate Genuine(sha: Sha, repo: string, b: string, prev: string, trusted: bool, xs: seq<Entry>) {
    xs == [] ||
    var before, x := xs[..|xs| - 1], xs[|xs| - 1];
    && Genuine(sha, repo, b, prev, trusted, before)
    && (Hashed(b, x) && Anchored(b, trusted, before) ==>
          DistinctPaths(x.files) && x.hash.value == Digest(sha, RecordOf(repo, PrevAfter(b, prev, before), x)))
  }

  lemma {:induction false} MoreTexts(sha: Sha, texts: set<string>, more: set<string>, repo: string, b: string,
      prev: string, trusted: bool, xs: seq<Entry>)
    requires Checked(sha, texts, repo, b, prev, trusted, xs) && texts <= more
    ensures Checked(sha, more, repo, b, prev, trusted, xs)
  {
    if xs != [] {
      MoreTexts(sha, texts, more, repo, b, prev, trusted, xs[..|xs| - 1]);
    }
  }

  lemma MatchIsDigest(sha: Sha, texts: set<string>, repo: string, prev: string, x: Entry)
    requires Matches(sha, texts, repo, prev, x) && DistinctPaths(x.files)
    ensures x.hash == Some(Digest(sha, RecordOf(repo, prev, x)))
    ensures x.hash == Some(Digest(sha,
      Record(prev, x.sequence, repo, x.branch, x.author, x.message, x.createdAt, ToMap(x.files))))
  {
    var sorted :| IsSortOf(sorted, x.files) && Bytes(HeaderOf(repo, prev, x), sorted) in texts
                  && x.hash == Some(sha(Bytes(HeaderOf(repo, prev, x), sorted)));
    SortedDistinct(sorted, x.files);
  }

  /** For entries with distinct paths the two are the same. */
  lemma {:induction false} CheckedIsGenuine(sha: Sha, texts: set<string>, repo: string, b: string, prev: string,
      trusted: bool, xs: seq<Entry>)
    requires forall x :: x in xs ==> DistinctPaths(x.files)
    requires Checked(sha, texts, repo, b, prev, trusted, xs)
    ensures Genuine(sha, repo, b, prev, trusted, xs)
  {
    hide Bytes, HeaderOf;
    if xs != [] {
      var before, x := xs[..|xs| - 1], xs[|xs| - 1];
      CheckedIsGenuine(sha, texts, repo, b, prev, trusted, before);
      if Hashed(b, x) && Anchored(b, trusted, before) {
        MatchIsDigest(sha, texts, repo, PrevAfter(b, prev, before), x);
      }
    }
  }

  // ---------------------------------------------------------------------------
  // The client
  // ---------------------------------------------------------------------------

  /** CommitHash on an entry, with the text it hashed. */
  method HashEntry(sha: Sha, repo: string, prev: string, x: Entry) returns (hex: string, ghost text: string)
    ensures x.hash == Some(hex) ==> Matches(sha, {text}, repo, prev, x)
    ensures DistinctPaths(x.files) ==> hex == Digest(sha, RecordOf(repo, prev, x))
  {
    hex := CommitHash(sha, prev, x.sequence, repo, x.branch, x.author, x.message, x.createdAt, x.files);
    ghost var sorted :| IsSortOf(sorted, x.files) && hex == sha(Bytes(HeaderOf(repo, prev, x), sorted));
    text := Bytes(HeaderOf(repo, prev, x), sorted);
  }

  /** Entry k is the first that does not match. */
  ghost predicate FirstFailure(sha: Sha, texts: set<string>, repo: string, b: string, prev: string, trusted: bool,
      xs: seq<Entry>, k: nat)
  {
    && k < |xs| && Checked(sha, texts, repo, b, prev, trusted, xs[..k])
    && Hashed(b, xs[k]) && Anchored(b, trusted, xs[..k])
    && (DistinctPaths(xs[k].files) ==>
          xs[k].hash.value != Digest(sha, RecordOf(repo, PrevAfter(b, prev, xs[..k]), xs[k])))
  }

  lemma {:induction false} FailureIsNotGenuine(sha: Sha, texts: set<string>, repo: string, b: string, prev: string,
      trusted: bool, xs: seq<Entry>, k: nat)
    requires FirstFailure(sha, texts, repo, b, prev, trusted, xs, k)
    ensures !Genuine(sha, repo, b, prev, trusted, xs)
  {
    if k < |xs| - 1 {
      var before := xs[..|xs| - 1];
      assert before[..k] == xs[..k];
      FailureIsNotGenuine(sha, texts, repo, b, prev, trusted, before, k);
    }
  }

  lemma MatchMoreTexts(sha: Sha, texts: set<string>, more: set<string>, repo: string, prev: string, x: Entry)
    requires Matches(sha, texts, repo, prev, x) && texts <= more
    ensures Matches(sha, more, repo, prev, x)
  {
  }

  lemma CheckNext(sha: Sha, texts: set<string>, text: string, repo: string, b: string, prev: string, trusted: bool,
      xs: seq<Entry>, k: nat)
    requires k < |xs| && Checked(sha, texts, repo, b, prev, trusted, xs[..k])
    requires Hashed(b, xs[k]) && Anchored(b, trusted, xs[..k]) ==>
      Matches(sha, {text}, repo, PrevAfter(b, prev, xs[..k]), xs[k])
    ensures Checked(sha, texts + {text}, repo, b, prev, trusted, xs[..k + 1])
  {
    hide Bytes, HeaderOf, IsSortOf;
    assert xs[..k + 1][..k] == xs[..k];
    MoreTexts(sha, texts, texts + {text}, repo, b, prev, trusted, xs[..k]);
    if Hashed(b, xs[k]) && Anchored(b, trusted, xs[..k]) {
      MatchMoreTexts(sha, {text}, texts + {text}, repo, PrevAfter(b, prev, xs[..k]), xs[k]);
    }
  }

  lemma NothingChecked(sha: Sha, texts: set<string>, repo: string, b: string, prev: string, trusted: bool)
    ensures Checked(sha, texts, repo, b, prev, trusted, [])
  {
  }

  /** Verify: the error names the first hashed entry after the anchor that does not match. */
  method Verify(sha: Sha, repo: string, b: string, entries: seq<Entry>)
    returns (err: Option<nat>, ghost texts: set<string>)
    ensures err.None? ==> Checked(sha, texts, repo, b, GENESIS_HASH, false, entries)
    ensures err.Some? ==> exists k: nat ::
        FirstFailure(sha, texts, repo, b, GENESIS_HASH, false, entries, k) && entries[k].sequence == err.value
    ensures Genuine(sha, repo, b, GENESIS_HASH, false, entries) ==> err.None?
  {
    hide Checked, Matches, Genuine, Digest, RecordOf;
    var prevHash, foundFirst := GENESIS_HASH, false;
    err, texts := None, {};
    ghost var failed := 0;
    NothingChecked(sha, texts, repo, b, GENESIS_HASH, false);
    assert entries[..0] == [];
    for i := 0 to |entries|
      invariant prevHash == PrevAfter(b, GENESIS_HASH, entries[..i])
      invariant foundFirst == Anchored(b, false, entries[..i])
      invariant err.None? ==> Checked(sha, texts, repo, b, GENESIS_HASH, false, entries[..i])
      invariant err.Some? ==>
          FirstFailure(sha, texts, repo, b, GENESIS_HASH, false, entries, failed)
          && entries[failed].sequence == err.value
    {
      var x := entries[i];
      assert entries[..i + 1][..i] == entries[..i];
      ghost var text := "";
      ghost var before := texts;
      if x.branch == b {
        if x.hash.None? {
          prevHash := GENESIS_HASH;
        } else if !foundFirst {
          foundFirst := true;
          prevHash := x.hash.value;
        } else {
          var computed;
          computed, text := HashEntry(sha, repo, prevHash, x);
          if computed != x.hash.value && err.None? {
            err, failed := Some(x.sequence), i;
          }
          prevHash := x.hash.value;
        }
      }
      if err.None? {
        CheckNext(sha, texts, text, repo, b, GENESIS_HASH, false, entries, i);
        texts := texts + {text};
      }
    }
    assert entries[..|entries|] == entries;
    if err.Some? {
      FailureIsNotGenuine(sha, texts, repo, b, GENESIS_HASH, false, entries, failed);
    }
  }

  /** What a pull starts from: Genesis when the anchor has no hash, else the stored hash. */
  function PullStart(stored: string, xs: seq<Entry>): string
    requires xs != []
  {
    if xs[0].hash.None? then GENESIS_HASH else stored
  }

  /** A pull accepts: the anchor still has the stored hash, and the rest is chained to it. */
  ghost predicate PullAccepts(sha: Sha, texts: set<string>, repo: string, b: string, stored: string, xs: seq<Entry>)
    requires xs != []
  {
    (xs[0].hash.None? || xs[0].hash.value == stored)
      && Checked(sha, texts, repo, b, PullStart(stored, xs), true, xs[1..])
  }

  function PullHash(b: string, stored: string, xs: seq<Entry>): string
    requires xs != []
  {
    PrevAfter(b, PullStart(stored, xs), xs[1..])
  }

  /** The saved state of a client. */
  class Client {
    const sha: Sha
    const repo: string
    var branch: string
    var sequence: nat
    var commitHash: string

    constructor (sha: Sha, repo: string, branch: string)
      ensures this.sha == sha && this.repo == repo && this.branch == branch && sequence == 0 && commitHash == ""
    {
      this.sha, this.repo, this.branch, sequence, commitHash := sha, repo, branch, 0, "";
    }

    /** CheckoutNew, with the base of the new branch: the stored hash is kept. */
    method CheckoutNew(b: string, base: nat)
      modifies this`branch, this`sequence
      ensures branch == b && sequence == base
    {
      branch, sequence := b, base;
    }

    /** The loop over the entries after the anchor. */
    method CheckLinks(start: string, xs: seq<Entry>)
      returns (err: Option<nat>, prevHash: string, ghost texts: set<string>)
      ensures err.None? ==>
          Checked(sha, texts, repo, branch, start, true, xs) && prevHash == PrevAfter(branch, start, xs)
      ensures Genuine(sha, repo, branch, start, true, xs) ==> err.None?
    {
      hide Checked, Matches, Genuine, Digest, RecordOf;
      prevHash, err, texts := start, None, {};
      NothingChecked(sha, texts, repo, branch, start, true);
      assert xs[..0] == [];
      for i := 0 to |xs|
        invariant prevHash == PrevAfter(branch, start, xs[..i]) && Anchored(branch, true, xs[..i])
        invariant Checked(sha, texts, repo, branch, start, true, xs[..i])
      {
        var x := xs[i];
        assert xs[..i + 1][..i] == xs[..i];
        ghost var text := "";
        if x.branch == branch {
          if x.hash.None? {
            prevHash := GENESIS_HASH;
          } else {
            var computed;
            computed, text := HashEntry(sha, repo, prevHash, x);
            if computed != x.hash.value {
              FailureIsNotGenuine(sha, texts, repo, branch, start, true, xs, i);
              return Some(x.sequence), prevHash, texts;
            }
            prevHash := x.hash.value;
          }
        }
        CheckNext(sha, texts, text, repo, branch, start, true, xs, i);
        texts := texts + {text};
      }
      assert xs[..|xs|] == xs;
    }

    /** Pull, after the tree was synced to the server's head newSequence; fetch is the server's chain endpoint. */
    method Pull(newSequence: nat, fetch: (nat, nat) -> seq<Entry>, skipVerify: bool)
      returns (err: Option<nat>, ghost texts: set<string>)
      modifies this`sequence, this`commitHash
      ensures sequence == newSequence
      ensures err.Some? ==> commitHash == old(commitHash)
      ensures skipVerify || newSequence == 0 ==> err.None? && commitHash == old(commitHash)
      ensures !skipVerify && newSequence != 0 && old(commitHash) == "" ==>
        var tip := fetch(newSequence, newSequence);
        err.None? && commitHash == if tip != [] && tip[0].hash.Some? then tip[0].hash.value else ""
      ensures !skipVerify && newSequence != 0 && old(commitHash) != "" ==>
        var xs := fetch(old(sequence), newSequence);
        if old(sequence) == newSequence || xs == [] then err.None? && commitHash == old(commitHash)
        else
          && (err.None? ==> PullAccepts(sha, texts, repo, branch, old(commitHash), xs)
                            && commitHash == PullHash(branch, old(commitHash), xs))
          && (xs[0].hash.Some? && xs[0].hash.value != old(commitHash) ==> err == Some(xs[0].sequence))
          && (err.Some? && (xs[0].hash.None? || xs[0].hash.value == old(commitHash)) ==>
                !Genuine(sha, repo, branch, PullStart(old(commitHash), xs), true, xs[1..]))
    {
      hide Checked, Genuine;
      texts, err := {}, None;
      var oldSequence := sequence;
      sequence := newSequence;
      if skipVerify || newSequence == 0 {
        return;
      }
      if commitHash == "" {
        var tip := fetch(newSequence, newSequence);
        if |tip| > 0 && tip[0].hash.Some? {
          commitHash := tip[0].hash.value;
        }
        return;
      }
      if oldSequence == newSequence {
        return;
      }
      var xs := fetch(oldSequence, newSequence);
      if |xs| == 0 {
        return;
      }
      var anchor := xs[0];
      if anchor.hash.Some? && anchor.hash.value != commitHash {
        return Some(anchor.sequence), {};
      }
      var start := if anchor.hash.None? then GENESIS_HASH else commitHash;
      var prevHash;
      err, prevHash, texts := CheckLinks(start, xs[1..]);
      if err.None? {
        commitHash := prevHash;
      }
    }
  }

  /** What a pull comes to on a reply that lists every path once. */
  ghost predicate Accepts(sha: Sha, repo: string, b: string, stored: string, xs: seq<Entry>) {
    xs == [] ||
    ((xs[0].hash.None? || xs[0].hash.value == stored) && Genuine(sha, repo, b, PullStart(stored, xs), true, xs[1..]))
  }

  lemma AcceptedIsGenuine(sha: Sha, texts: set<string>, repo: string, b: string, stored: string, xs: seq<Entry>)
    requires xs != [] && PullAccepts(sha, texts, repo, b, stored, xs)
    requires forall x :: x in xs ==> DistinctPaths(x.files)
    ensures Accepts(sha, repo, b, stored, xs)
  {
    hide Checked, Genuine;
    CheckedIsGenuine(sha, texts, repo, b, PullStart(stored, xs), true, xs[1..]);
  }

  /**
   * Two pulls, the first of them rejected. The second reports no error when the head has not moved,
   * although nothing was verified. Otherwise it checks the hash stored before both pulls against
   * the entry of the rejected head, and every link from there.
   */
  method PullAgain(client: Client, s1: nat, reply: (nat, nat) -> seq<Entry>, s2: nat, again: (nat, nat) -> seq<Entry>)
    returns (first: Option<nat>, second: Option<nat>)
    modifies client
    ensures client.sequence == s2
    ensures first.Some? && (s2 == s1 || s2 == 0) ==> second.None? && client.commitHash == old(client.commitHash)
    ensures first.Some? && s2 != s1 && s2 != 0 ==>
      var xs, stored := again(s1, s2), old(client.commitHash);
      && (second.Some? ==> client.commitHash == stored)
      && ((forall x :: x in xs ==> DistinctPaths(x.files)) ==>
            (second.None? <==> Accepts(client.sha, client.repo, client.branch, stored, xs)))
  {
    hide Checked, Genuine, PullAccepts;
    ghost var texts;
    first, texts := client.Pull(s1, reply, false);
    ghost var stored, xs := client.commitHash, again(s1, s2);
    second, texts := client.Pull(s2, again, false);
    ghost var checks := first.Some? && s2 != s1 && s2 != 0 && xs != [];
    if checks && second.None? && forall x :: x in xs ==> DistinctPaths(x.files) {
      AcceptedIsGenuine(client.sha, texts, client.repo, client.branch, stored, xs);
    }
  }

  // ---------------------------------------------------------------------------
  // Composition
  // ---------------------------------------------------------------------------

  lemma {:induction false} PrevAppend(b: string, prev: string, xs: seq<Entry>, ys: seq<Entry>)
    ensures PrevAfter(b, prev, xs + ys) == PrevAfter(b, PrevAfter(b, prev, xs), ys)
  {
    if ys == [] {
      assert xs + ys == xs;
    } else {
      var k := |ys| - 1;
      assert (xs + ys)[..|xs| + k] == xs + ys[..k];
      PrevAppend(b, prev, xs, ys[..k]);
    }
  }

  lemma {:induction false} AlwaysAnchored(b: string, xs: seq<Entry>)
    ensures Anchored(b, true, xs)
  {
    if xs != [] {
      AlwaysAnchored(b, xs[..|xs| - 1]);
    }
  }

  /** Checking a chain in two pieces is checking it whole. */
  lemma {:induction false} CheckedAppend(sha: Sha, texts: set<string>, repo: string, b: string, prev: string,
      xs: seq<Entry>, ys: seq<Entry>)
    ensures Checked(sha, texts, repo, b, prev, true, xs + ys) <==>
      && Checked(sha, texts, repo, b, prev, true, xs)
      && Checked(sha, texts, repo, b, PrevAfter(b, prev, xs), true, ys)
  {
    hide Matches;
    if ys == [] {
      assert xs + ys == xs;
    } else {
      var k := |ys| - 1;
      assert (xs + ys)[..|xs| + k] == xs + ys[..k];
      CheckedAppend(sha, texts, repo, b, prev, xs, ys[..k]);
      PrevAppend(b, prev, xs, ys[..k]);
      AlwaysAnchored(b, xs + ys[..k]);
      AlwaysAnchored(b, ys[..k]);
    }
  }

  /**
   * Pulling from s0 to s1 and then from s1 to s2 accepts exactly when pulling from s0 to s2 does,
   * and ends with the same hash stored, when s1 is a hashed commit of the branch: its entry ends
   * the first reply and begins the second.
   */
  lemma PullsCompose(sha: Sha, texts: set<string>, repo: string, b: string, stored: string, xs: seq<Entry>,
      mid: Entry, ys: seq<Entry>)
    requires xs != [] && Hashed(b, mid)
    ensures var first, second, whole := xs + [mid], [mid] + ys, xs + [mid] + ys;
      var between := PullHash(b, stored, first);
      && between == mid.hash.value
      && (PullAccepts(sha, texts, repo, b, stored, whole) <==>
            PullAccepts(sha, texts, repo, b, stored, first) && PullAccepts(sha, texts, repo, b, between, second))
      && PullHash(b, stored, whole) == PullHash(b, between, second)
  {
    hide Checked;
    var first, second, whole := xs + [mid], [mid] + ys, xs + [mid] + ys;
    assert whole[1..] == first[1..] + ys && second[1..] == ys;
    CheckedAppend(sha, texts, repo, b, PullStart(stored, whole), first[1..], ys);
    PrevAppend(b, PullStart(stored, whole), first[1..], ys);
    assert first[1..][..|first[1..]| - 1] == xs[1..];
  }
}
