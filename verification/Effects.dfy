/**
 * What the transactions leave in each table, row by row, and what that means to a reader. These
 * statements name columns and constants only, not the functions the transactions are built from.
 */
module Effects {
  import opened Wrappers
  import opened Strings
  import opened Timestamps
  import opened CommitHashing
  import opened Tables
  import opened Transactions
  import opened Resolving
  import opened Views
  import opened Purging
  import opened StoreSpecs
  import opened Outcomes

  // ---------------------------------------------------------------------------
  // CreateBranch
  // ---------------------------------------------------------------------------

  lemma NewBranchIsEmpty(r: Repo, name: string)
    requires LogOk(r) && HeadsOk(r) && name !in r.branches
    ensures forall lo, hi :: Net(r.files, name, lo, hi) == map[]
  {
    forall lo, hi ensures Net(r.files, name, lo, hi) == map[] {
      NetBeyond(r.files, name, lo, 0, hi);
    }
  }

  lemma MainIsItsOwnBase(r: Repo)
    requires MAIN in r.branches && r.branches[MAIN].base == 0
    ensures View(r, MAIN) == Net(r.files, MAIN, 0, r.next)
  {
    assert Net(r.files, MAIN, 0, 0) == map[];
  }

  /** A new branch starts at main's head, reads as main does, and has nothing to merge or to conflict with. */
  lemma NewBranchIsMain(e: Env, r: Repo, name: string, draft: bool, at: Timestamp)
    requires Sound(e, r) && name !in r.branches && MAIN in r.branches
    ensures var s, head := BranchOff(r, name, draft, at), r.branches["main"].head;
      && s == r.(branches := r.branches[name := Branch(head, head, Active, draft, at)])
      && (forall b :: b in r.branches ==> b in s.branches && s.branches[b] == r.branches[b])
      && View(s, name) == View(r, "main") && ChangesOf(s, name) == map[] && MainChanges(s, name) == map[]
  {
    hide ChainOk, Covered, ReviewsOk, Net, NoOrphans;
    var head := r.branches[MAIN].head;
    NewBranchIsEmpty(r, name);
    NothingAboveHead(r, MAIN);
    NetSplit(r.files, MAIN, 0, head, r.next);
    MainIsItsOwnBase(r);
  }

  // ---------------------------------------------------------------------------
  // Commit
  // ---------------------------------------------------------------------------

  /** The row of a path has no version for a deletion, else a document with the hash of the content. */
  ghost predicate RowFits(sha: Sha, docs: map<nat, Doc>, rows: Changes, f: FileChange) {
    && f.path in rows
    && match f.content
       case None => rows[f.path] == None
       case Some(content) =>
         rows[f.path].Some? && rows[f.path].value in docs && docs[rows[f.path].value].contentHash == sha(content)
  }

  lemma FitsMore(sha: Sha, docs: map<nat, Doc>, more: map<nat, Doc>, rows: Changes, f: FileChange, p: string,
      v: Option<nat>)
    requires RowFits(sha, docs, rows, f) && docs.Keys !! more.Keys && p != f.path
    ensures RowFits(sha, docs + more, rows[p := v], f)
  {
  }

  /** No two documents of docs have one hash with one of them in added. */
  ghost predicate Deduplicated(docs: map<nat, Doc>, added: map<nat, Doc>) {
    && (forall v, w :: v in added && w in docs ==> added[v].contentHash != docs[w].contentHash)
    && (forall v, w :: v in added && w in added && v != w ==> added[v].contentHash != added[w].contentHash)
  }

  lemma ResolveOneFits(sha: Sha, docs: map<nat, Doc>, p: Resolution, f: FileChange)
    requires AddedOk(docs, p) && Deduplicated(docs, p.added)
    ensures var q := ResolveOne(sha, docs, p, f);
      && RowFits(sha, docs + q.added, q.rows, f) && q.rows.Keys == p.rows.Keys + {f.path}
      && forall g: FileChange :: g.path != f.path && RowFits(sha, docs + p.added, p.rows, g) ==>
        RowFits(sha, docs + q.added, q.rows, g)
  {
    assert forall v :: v in docs || v in p.added ==> v in docs + p.added;
  }

  lemma ResolveOneDeduplicates(sha: Sha, docs: map<nat, Doc>, p: Resolution, f: FileChange)
    requires AddedOk(docs, p) && Deduplicated(docs, p.added)
    ensures Deduplicated(docs, ResolveOne(sha, docs, p, f).added)
  {
    assert forall v :: v in docs || v in p.added ==> v in docs + p.added;
    assert forall v :: v in p.added ==> (docs + p.added)[v] == p.added[v];
    assert forall v :: v in docs ==> (docs + p.added)[v] == docs[v];
  }

  lemma NothingAdded(docs: map<nat, Doc>)
    ensures Deduplicated(docs, map[])
  {
  }

  predicate Names(files: seq<FileChange>, p: string) { exists i :: 0 <= i < |files| && files[i].path == p }

  lemma NamesSnoc(files: seq<FileChange>, p: string)
    requires files != []
    ensures Names(files, p) <==> Names(files[..|files| - 1], p) || files[|files| - 1].path == p
  {
    var n := |files| - 1;
    if i :| 0 <= i < |files| && files[i].path == p {
      assert i < n ==> files[..n][i].path == p;
    }
    if i :| 0 <= i < |files[..n]| && files[..n][i].path == p {
      assert files[i].path == p;
    }
  }

  lemma NoNames()
    ensures forall p :: !Names([], p)
  {
  }

  lemma {:induction false} ResolvePaths(sha: Sha, docs: map<nat, Doc>, next: nat, files: seq<FileChange>)
    ensures forall p :: p in Resolve(sha, docs, next, files).rows <==> Names(files, p)
  {
    hide ResolveOne, Names;
    if files == [] {
      assert forall p :: !Names(files, p) by { NoNames(); }
    } else {
      var n := |files| - 1;
      ResolvePaths(sha, docs, next, files[..n]);
      ResolveOneKeys(sha, docs, Resolve(sha, docs, next, files[..n]), files[n]);
      forall p ensures Names(files, p) <==> Names(files[..n], p) || files[n].path == p {
        NamesSnoc(files, p);
      }
    }
  }

  lemma {:induction false} ResolveFits(sha: Sha, docs: map<nat, Doc>, next: nat, files: seq<FileChange>)
    requires DistinctChanges(files) && Below(docs, next)
    ensures var q := Resolve(sha, docs, next, files);
      && Deduplicated(docs, q.added)
      && (forall i :: 0 <= i < |files| ==> RowFits(sha, docs + q.added, q.rows, files[i]))
  {
    hide ResolveOne, AddedOk, RowFits, Deduplicated, RowsOk, HashesOf, Below;
    if files == [] {
      NothingAdded(docs);
    } else {
      var n := |files| - 1;
      var p := Resolve(sha, docs, next, files[..n]);
      ResolveFits(sha, docs, next, files[..n]);
      ResolveMeans(sha, docs, next, files[..n]);
      ResolveOneFits(sha, docs, p, files[n]);
      ResolveOneDeduplicates(sha, docs, p, files[n]);
      assert forall i :: 0 <= i < n ==> files[..n][i] == files[i];
    }
  }

  /** The hash of each path of a commit: that of its document, or empty for a deletion. */
  function HashesAt(docs: map<nat, Doc>, rows: Changes): map<string, string> {
    map p | p in rows :: if rows[p].Some? && rows[p].value in docs then docs[rows[p].value].contentHash else ""
  }

  lemma HashesAtAre(docs: map<nat, Doc>, rows: Changes)
    ensures Contents(docs, rows) == HashesAt(docs, rows) && HashesAt(docs, rows).Keys == rows.Keys
  {
  }

  /**
   * A commit moves the head of its branch to the new sequence and stores its rows; its hash is that
   * of its own columns, chained to the previous commit of the branch.
   */
  lemma CommitColumns(e: Env, r: Repo, b: string, author: string, message: string, at: Timestamp, n: nat,
      rows: Changes, added: map<nat, Doc>)
    requires b in r.branches
    ensures CommitTo(e, r, b, author, message, at, n, rows, added) == Repo(
      r.branches[b := r.branches[b].(head := n)],
      r.commits[n := Tables.Commit(b, message, author, at, Some(e.digest(
        Record(PrevHash(r.commits, b, n), n, e.repo, b, author, message, at, HashesAt(r.docs + added, rows)))))],
      r.files[n := Rows(b, rows)], r.docs + added, r.reviews, r.next)
  {
    hide PrevHash;
    HashesAtAre(r.docs + added, rows);
  }

  /**
   * A commit stores one row per path of the request, without a version for a deletion and else with
   * a document that has the hash of the content, and adds no document whose content the store has.
   */
  lemma CommitIsRequest(sha: Sha, docs: map<nat, Doc>, next: nat, changes: seq<FileChange>)
    requires DistinctChanges(changes) && Below(docs, next)
    ensures var q := Resolve(sha, docs, next, changes);
      var more := docs + q.added;
      && (forall p :: p in q.rows <==> exists i :: 0 <= i < |changes| && changes[i].path == p)
      && (forall i :: 0 <= i < |changes| && changes[i].content.None? ==> q.rows[changes[i].path] == None)
      && (forall i :: 0 <= i < |changes| && changes[i].content.Some? ==>
            var v := q.rows[changes[i].path];
            v.Some? && v.value in more && more[v.value].contentHash == sha(changes[i].content.value))
      && docs.Keys !! q.added.Keys
      && (forall v, w :: v in q.added && w in docs ==> q.added[v].contentHash != docs[w].contentHash)
      && (forall v, w :: v in q.added && w in q.added && v != w ==> q.added[v].contentHash != q.added[w].contentHash)
  {
    hide Resolve, Below;
    ResolveFits(sha, docs, next, changes);
    ResolvePaths(sha, docs, next, changes);
    assert forall p :: p in Resolve(sha, docs, next, changes).rows <==> Names(changes, p);
    ResolveMeans(sha, docs, next, changes);
    var q := Resolve(sha, docs, next, changes);
    assert forall i :: 0 <= i < |changes| ==> RowFits(sha, docs + q.added, q.rows, changes[i]);
  }

  // ---------------------------------------------------------------------------
  // Merge
  // ---------------------------------------------------------------------------

  /**
   * A merge marks the branch merged. If the branch has changed anything since its base, main gets
   * one commit with exactly these changes.
   */
  lemma MergeColumns(e: Env, r: Repo, b: string, author: string, at: Timestamp, n: nat)
    requires b in r.branches && b != "main" && "main" in r.branches
    ensures var s, ours := MergeInto(e, r, b, author, at, n), Net(r.files, b, r.branches[b].base, r.next);
      if ours == map[] then s == r.(branches := r.branches[b := r.branches[b].(status := Status.Merged)])
      else s == Repo(
        r.branches["main" := r.branches["main"].(head := n)][b := r.branches[b].(status := Status.Merged)],
        r.commits[n := Tables.Commit("main", "merge branch '" + b + "'", author, at, Some(e.digest(
          Record(PrevHash(r.commits, "main", n), n, e.repo, "main", author, "merge branch '" + b + "'", at,
                 HashesAt(r.docs, ours)))))],
        r.files[n := Rows("main", ours)], r.docs, r.reviews, r.next)
  {
    hide PrevHash, Net;
    HashesAtAre(r.docs, Net(r.files, b, r.branches[b].base, r.next));
  }

  /** The merge of the store does this at the next number. */
  lemma MergedStateColumns(e: Env, r: Repo, b: string, author: string, at: Timestamp)
    requires Sound(e, r) && b in r.branches && b != "main"
    ensures "main" in r.branches
    ensures var s, ours := MergedState(e, r, b, author, at), Net(r.files, b, r.branches[b].base, r.next);
      s == if ours == map[] then r.(branches := r.branches[b := r.branches[b].(status := Status.Merged)])
           else MergeInto(e, r.(next := r.next + 1), b, author, at, r.next)
  {
    hide Inv, MergeInto, Net, NoOrphans;
    SoundLog(e, r);
  }

  // ---------------------------------------------------------------------------
  // Rebase
  // ---------------------------------------------------------------------------

  lemma {:induction false} GroupSeqsAre(files: FileTable, b: string, lo: nat, hi: nat)
    ensures var src := GroupSeqs(files, b, lo, hi);
      && (forall i, j :: 0 <= i < j < |src| ==> src[i] < src[j])
      && (forall n: nat :: n in src <==> lo < n <= hi && RowsAt(files, b, n) != map[])
    decreases hi
  {
    if lo < hi {
      GroupSeqsAre(files, b, lo, hi - 1);
      var before := GroupSeqs(files, b, lo, hi - 1);
      assert forall i :: 0 <= i < |before| ==> before[i] in before;
    }
  }

  lemma CommitsHaveRows(r: Repo, b: string)
    requires LogOk(r)
    ensures forall n: nat :: RowsAt(r.files, b, n) != map[] <==> n in r.commits && r.commits[n].branch == b
  {
  }

  /** What a rebase replays: the commits of the branch above its base, in sequence order. */
  lemma SourcesAre(r: Repo, b: string)
    requires LogOk(r) && b in r.branches
    ensures var src := SourcesOf(r, b);
      && (forall i, j :: 0 <= i < j < |src| ==> src[i] < src[j])
      && (forall n: nat :: n in src <==> n in r.commits && r.commits[n].branch == b && n > r.branches[b].base)
  {
    hide GroupSeqs, RowsAt;
    assert forall n: nat :: RowsAt(r.files, b, n) != map[] <==> n in r.commits && r.commits[n].branch == b by {
      CommitsHaveRows(r, b);
    }
    GroupSeqsAre(r.files, b, r.branches[b].base, r.next);
  }

  /** The i-th replay, as a commit of the branch. */
  ghost predicate IsReplay(r: Repo, s: Repo, b: string, author: string, at: Timestamp, source: nat, n: nat) {
    && n in s.commits && n in s.files && source in r.files
    && s.commits[n].branch == b && s.commits[n].author == (if author == "" then "system" else author)
    && s.commits[n].message == "rebase: replay sequence " + Decimal(source) && s.commits[n].createdAt == at
    && s.files[n] == Rows(b, r.files[source].changes)
  }

  /** s has the commits of r and the first k replays. */
  ghost predicate HasReplays(r: Repo, s: Repo, b: string, author: string, at: Timestamp, src: seq<nat>, ns: seq<nat>,
      k: nat)
    requires k <= |src| == |ns|
  {
    && (forall n :: n in s.commits <==> n in r.commits || n in ns[..k])
    && (forall n :: n in s.files <==> n in r.files || n in ns[..k])
    && (forall n :: n in r.commits ==> n in s.commits && s.commits[n] == r.commits[n])
    && (forall n :: n in r.files ==> n in s.files && s.files[n] == r.files[n])
    && (forall i :: 0 <= i < k ==> IsReplay(r, s, b, author, at, src[i], ns[i]))
  }

  lemma NewReplay(e: Env, r: Repo, s: Repo, b: string, author: string, at: Timestamp, source: nat, n: nat)
    requires b in s.branches && source in r.files && r.files[source].branch == b
    ensures var t := Advance(e, s, b, ReplayAuthor(author), ReplayMessage(source), at, n, RowsAt(r.files, b, source));
      && IsReplay(r, t, b, author, at, source, n)
      && t.commits.Keys == s.commits.Keys + {n} && t.files.Keys == s.files.Keys + {n}
      && (forall m :: m in s.commits && m != n ==> t.commits[m] == s.commits[m])
      && (forall m :: m in s.files && m != n ==> t.files[m] == s.files[m])
  {
    hide PrevHash, Decimal, Contents;
  }

  lemma OldReplay(r: Repo, s: Repo, t: Repo, b: string, author: string, at: Timestamp, source: nat, n: nat)
    requires IsReplay(r, s, b, author, at, source, n) && n in t.commits && n in t.files
    requires t.commits[n] == s.commits[n] && t.files[n] == s.files[n]
    ensures IsReplay(r, t, b, author, at, source, n)
  {
    hide Decimal;
  }

  lemma HasOneMore(r: Repo, s: Repo, t: Repo, b: string, author: string, at: Timestamp, src: seq<nat>, ns: seq<nat>,
      k: nat)
    requires k < |src| == |ns| && HasReplays(r, s, b, author, at, src, ns, k)
    requires forall i, j :: 0 <= i < j < |ns| ==> ns[i] != ns[j]
    requires ns[k] !in r.commits && ns[k] !in r.files && IsReplay(r, t, b, author, at, src[k], ns[k])
    requires t.commits.Keys == s.commits.Keys + {ns[k]} && t.files.Keys == s.files.Keys + {ns[k]}
    requires forall m :: m in s.commits && m != ns[k] ==> t.commits[m] == s.commits[m]
    requires forall m :: m in s.files && m != ns[k] ==> t.files[m] == s.files[m]
    ensures HasReplays(r, t, b, author, at, src, ns, k + 1)
  {
    hide IsReplay;
    assert ns[..k + 1] == ns[..k] + [ns[k]];
    forall i | 0 <= i < k ensures IsReplay(r, t, b, author, at, src[i], ns[i]) {
      assert ns[i] in ns[..k];
      OldReplay(r, s, t, b, author, at, src[i], ns[i]);
    }
  }

  lemma ReplayNext(e: Env, r: Repo, s: Repo, b: string, author: string, at: Timestamp, src: seq<nat>, ns: seq<nat>,
      k: nat)
    requires b in s.branches && k < |src| == |ns| && HasReplays(r, s, b, author, at, src, ns, k)
    requires forall i, j :: 0 <= i < j < |ns| ==> ns[i] != ns[j]
    requires ns[k] !in r.commits && ns[k] !in r.files && src[k] in r.files && r.files[src[k]].branch == b
    ensures var t := Advance(e, s, b, ReplayAuthor(author), ReplayMessage(src[k]), at, ns[k],
                             RowsAt(r.files, b, src[k]));
      HasReplays(r, t, b, author, at, src, ns, k + 1)
  {
    hide IsReplay, HasReplays, Advance, RowsAt, ReplayAuthor, ReplayMessage;
    var t := Advance(e, s, b, ReplayAuthor(author), ReplayMessage(src[k]), at, ns[k], RowsAt(r.files, b, src[k]));
    NewReplay(e, r, s, b, author, at, src[k], ns[k]);
    HasOneMore(r, s, t, b, author, at, src, ns, k);
  }

  lemma HasNoReplays(r: Repo, b: string, author: string, at: Timestamp, src: seq<nat>, ns: seq<nat>)
    requires |src| == |ns|
    ensures HasReplays(r, r, b, author, at, src, ns, 0)
  {
  }

  lemma {:induction false} ReplaysAre(e: Env, r: Repo, b: string, author: string, src: seq<nat>, at: Timestamp,
      ns: seq<nat>, k: nat)
    requires b in r.branches && k <= |src| == |ns|
    requires forall i, j :: 0 <= i < j < |ns| ==> ns[i] != ns[j]
    requires forall i :: 0 <= i < |ns| ==> ns[i] !in r.commits && ns[i] !in r.files
    requires forall i :: 0 <= i < |src| ==> src[i] in r.files && r.files[src[i]].branch == b
    ensures HasReplays(r, Replayed(e, r, b, author, src, Repeat(at, |src|), ns, k), b, author, at, src, ns, k)
  {
    hide Advance, ReplayAuthor, ReplayMessage, RowsAt, Repeat, HasReplays;
    if k == 0 {
      HasNoReplays(r, b, author, at, src, ns);
    } else {
      ReplaysAre(e, r, b, author, src, at, ns, k - 1);
      ReplayNext(e, r, Replayed(e, r, b, author, src, Repeat(at, |src|), ns, k - 1), b, author, at, src, ns, k - 1);
    }
  }

  lemma SameReplays(r: Repo, s: Repo, t: Repo, b: string, author: string, at: Timestamp, src: seq<nat>, ns: seq<nat>)
    requires |src| == |ns| && t.commits == s.commits && t.files == s.files
    ensures HasReplays(r, s, b, author, at, src, ns, |src|) ==> HasReplays(r, t, b, author, at, src, ns, |src|)
  {
    hide Decimal;
  }

  lemma SourceRows(r: Repo, b: string, src: seq<nat>)
    requires LogOk(r) && forall n :: n in src ==> n in r.commits && r.commits[n].branch == b
    ensures forall i :: 0 <= i < |src| ==> src[i] in r.files && r.files[src[i]].branch == b
  {
    assert forall i :: 0 <= i < |src| ==> src[i] in src;
  }

  lemma RebaseHasReplays(e: Env, r: Repo, b: string, author: string, at: Timestamp, ns: seq<nat>)
    requires LogOk(r) && b in r.branches && MAIN in r.branches && |SourcesOf(r, b)| == |ns|
    requires forall i, j :: 0 <= i < j < |ns| ==> ns[i] != ns[j]
    requires forall i :: 0 <= i < |ns| ==> ns[i] !in r.commits && ns[i] !in r.files
    ensures var s := RebaseOnto(e, r, b, author, Repeat(at, |ns|), ns);
      && HasReplays(r, s, b, author, at, SourcesOf(r, b), ns, |ns|)
      && s.branches == r.branches[b := r.branches[b].(base := r.branches[MAIN].head,
           head := if ns == [] then r.branches[MAIN].head else ns[|ns| - 1])]
      && s.docs == r.docs && s.reviews == r.reviews && s.next == r.next
  {
    hide LogOk, Replayed, HasReplays, SourcesOf, Repeat;
    var src := SourcesOf(r, b);
    SourcesAre(r, b);
    SourceRows(r, b, src);
    ReplayedFields(e, r, b, author, src, Repeat(at, |ns|), ns, |ns|);
    ReplaysAre(e, r, b, author, src, at, ns, |ns|);
    SameReplays(r, Replayed(e, r, b, author, src, Repeat(at, |ns|), ns, |ns|),
                RebaseOnto(e, r, b, author, Repeat(at, |ns|), ns), b, author, at, src, ns);
  }

  lemma OnlyCommitsHaveRows(r: Repo)
    requires LogOk(r)
    ensures r.files.Keys <= r.commits.Keys
  {
  }

  /**
   * A rebase puts the branch on main's head and adds one commit for each commit of the branch above
   * the old base, in their order, with the same rows and the caller's name; nothing else changes.
   */
  lemma RebaseColumns(e: Env, r: Repo, b: string, author: string, at: Timestamp, ns: seq<nat>)
    requires LogOk(r) && b in r.branches && "main" in r.branches && |SourcesOf(r, b)| == |ns|
    requires forall i, j :: 0 <= i < j < |ns| ==> ns[i] != ns[j]
    requires forall i :: 0 <= i < |ns| ==> ns[i] !in r.commits
    ensures var s, src := RebaseOnto(e, r, b, author, Repeat(at, |ns|), ns), SourcesOf(r, b);
      var k, mainHead := |ns|, r.branches["main"].head;
      && s.branches == r.branches[b := r.branches[b].(
           base := mainHead, head := if k == 0 then mainHead else ns[k - 1])]
      && (forall n :: n in s.commits <==> n in r.commits || n in ns)
      && (forall n :: n in s.files <==> n in r.files || n in ns)
      && (forall n :: n in r.commits ==> s.commits[n] == r.commits[n])
      && (forall n :: n in r.files ==> s.files[n] == r.files[n])
      && (forall i :: 0 <= i < k ==>
            && ns[i] in s.commits && ns[i] in s.files && src[i] in r.files
            && (var c := s.commits[ns[i]];
                && c.branch == b && c.author == (if author == "" then "system" else author)
                && c.message == "rebase: replay sequence " + Decimal(src[i]) && c.createdAt == at)
            && s.files[ns[i]] == Rows(b, r.files[src[i]].changes))
      && s.docs == r.docs && s.reviews == r.reviews && s.next == r.next
  {
    hide SourcesOf, Decimal, RebaseOnto, Repeat, LogOk;
    assert forall i :: 0 <= i < |ns| ==> ns[i] !in r.files by { OnlyCommitsHaveRows(r); }
    RebaseHasReplays(e, r, b, author, at, ns);
    var s, src := RebaseOnto(e, r, b, author, Repeat(at, |ns|), ns), SourcesOf(r, b);
    assert ns[..|ns|] == ns;
    assert forall i :: 0 <= i < |ns| ==> IsReplay(r, s, b, author, at, src[i], ns[i]);
  }

  lemma AllocLog(r: Repo, k: nat)
    requires LogOk(r)
    ensures LogOk(Alloc(r, k)) && forall n :: n >= r.next ==> n !in r.commits
  {
  }

  /** The rebase of the store does this at the next numbers. */
  lemma RebasedStateColumns(e: Env, r: Repo, b: string, author: string, at: Timestamp)
    requires Sound(e, r) && b in r.branches && b != "main"
    ensures "main" in r.branches
    ensures var src := SourcesOf(r, b);
      var more, ns := r.(next := r.next + |src|), RebaseNumbers(r, b);
      && LogOk(more) && SourcesOf(more, b) == src && |ns| == |src|
      && (forall i :: 0 <= i < |ns| ==> ns[i] == r.next + i && ns[i] !in r.commits)
      && RebasedState(e, r, b, author, at) == RebaseOnto(e, more, b, author, Repeat(at, |ns|), ns)
  {
    hide Inv, LogOk, HeadsOk, MainOk, NoOrphans, RebaseOnto, SourcesOf, Repeat;
    SoundLog(e, r);
    AllocKeeps(e, r, |SourcesOf(r, b)|);
    AllocLog(r, |SourcesOf(r, b)|);
  }

  lemma HeadsBelowNext(r: Repo)
    requires HeadsOk(r)
    ensures forall b :: b in r.branches ==> r.branches[b].head < r.next
  {
  }

  /** Whoever rebases commits under their own name is an author of the branch from then on. */
  lemma RebaserIsAuthor(e: Env, r: Repo, b: string, author: string, at: Timestamp)
    requires Sound(e, r) && b in r.branches && b != "main" && author != ""
    requires exists n :: n in r.commits && r.commits[n].branch == b && n > r.branches[b].base
    ensures var s := RebasedState(e, r, b, author, at);
      && b in s.branches
      && exists n ::
           n in s.commits && s.commits[n].branch == b && n > s.branches[b].base && s.commits[n].author == author
  {
    hide Inv, LogOk, HeadsOk, MainOk, NoOrphans, RebasedState, RebaseOnto, SourcesOf, Decimal, Sound, Repeat;
    SoundLog(e, r);
    SourcesAre(r, b);
    RebasedStateColumns(e, r, b, author, at);
    var src, ns := SourcesOf(r, b), RebaseNumbers(r, b);
    RebaseColumns(e, r.(next := r.next + |src|), b, author, at, ns);
    HeadsBelowNext(r);
    var n :| n in r.commits && r.commits[n].branch == b && n > r.branches[b].base;
    assert n in src && ns[0] == r.next;
    var s := RebasedState(e, r, b, author, at);
    assert s.commits[ns[0]].branch == b && s.commits[ns[0]].author == author;
  }

  /** Who has a commit of the branch above lo. */
  lemma WroteAboveMeans(r: Repo, b: string, who: string, lo: nat)
    ensures WroteAbove(r, b, who, lo) <==>
      exists n :: n in r.commits && r.commits[n].branch == b && n > lo && r.commits[n].author == who
  {
    if n :| n in r.commits && r.commits[n].branch == b && n > lo && r.commits[n].author == who {
      assert WroteAt(r, b, who, n);
    }
  }

  lemma SourcesExist(r: Repo, b: string)
    requires LogOk(r) && b in r.branches
    ensures SourcesOf(r, b) != [] <==>
      exists n :: n in r.commits && r.commits[n].branch == b && n > r.branches[b].base
  {
    hide SourcesOf;
    SourcesAre(r, b);
    var src := SourcesOf(r, b);
    assert src != [] ==> src[0] in src;
  }

  /**
   * Whose approval the check of CreateReview turns away after a rebase: those with a commit of
   * the branch above main's head, and the name the replays carry. So whoever wrote the change may
   * approve it, once another user has rebased it past their last commit, and only then.
   */
  lemma SelfApprovalAfterRebase(e: Env, r: Repo, b: string, author: string, at: Timestamp, who: string)
    requires Sound(e, r) && b in r.branches && b != "main" && "main" in r.branches
    ensures var s := RebasedState(e, r, b, author, at);
      var above := exists n :: n in r.commits && r.commits[n].branch == b && n > r.branches["main"].head
                               && r.commits[n].author == who;
      var replays := (exists n :: n in r.commits && r.commits[n].branch == b && n > r.branches[b].base)
                     && who == (if author == "" then "system" else author);
      && b in s.branches
      && (above || replays <==> exists n ::
            n in s.commits && s.commits[n].branch == b && n > s.branches[b].base && s.commits[n].author == who)
  {
    hide Inv, NoOrphans, LogOk, RebasedState, SourcesOf, WroteAbove, AuthoredAbove;
    SoundLog(e, r);
    var s := RebasedState(e, r, b, author, at);
    AuthorsAfterRebase(e, r, b, author, at, who);
    SourcesExist(r, b);
    AuthoredIsWrote(s, b, who);
    WroteAboveMeans(r, b, who, r.branches[MAIN].head);
    WroteAboveMeans(s, b, who, s.branches[b].base);
  }

  // ---------------------------------------------------------------------------
  // Verdicts
  // ---------------------------------------------------------------------------

  /** Each conflict is a path changed on both sides, with both versions, and each such path is one conflict. */
  ghost predicate NamesConflicts(ours: Changes, theirs: Changes, cs: seq<MergeConflict>) {
    && (forall i :: 0 <= i < |cs| ==>
          && cs[i].path in ours && cs[i].path in theirs
          && cs[i] == MergeConflict(cs[i].path, theirs[cs[i].path], ours[cs[i].path]))
    && (forall p :: p in ours && p in theirs ==> exists i :: 0 <= i < |cs| && cs[i].path == p)
    && (forall i, j :: 0 <= i < j < |cs| ==> cs[i].path != cs[j].path)
  }

  lemma ConflictsAreNamed(ours: Changes, theirs: Changes, cs: seq<MergeConflict>)
    ensures Reports(ours, theirs, cs) <==> NamesConflicts(ours, theirs, cs)
  {
  }

  lemma ConflictsExist(r: Repo, b: string)
    requires b in r.branches
    ensures ConflictPaths(r, b) != {} <==> exists p :: p in ChangesOf(r, b) && p in MainChanges(r, b)
  {
    hide Net;
    if p :| p in ChangesOf(r, b) && p in MainChanges(r, b) {
      assert p in ConflictPaths(r, b);
    }
  }

  /** When a merge is refused, when it conflicts, and when it succeeds. */
  lemma MergeVerdict(e: Env, r: Repo, b: string, author: string, at: Timestamp, dryRun: bool, res: MergeResult, s: Repo)
    requires Sound(e, r) && MergeOutcome(e, r, b, author, at, dryRun, res, s)
    ensures b !in r.branches ==> res == MergeFailed(BranchNotFound)
    ensures b in r.branches && r.branches[b].status != Active ==> res == MergeFailed(BranchNotActive)
    ensures b in r.branches && r.branches[b].status == Active && r.branches[b].draft ==> res == MergeFailed(BranchDraft)
    ensures b in r.branches && r.branches[b].status == Active && !r.branches[b].draft ==>
      var base := r.branches[b].base;
      var ours, theirs := Net(r.files, b, base, r.next), Net(r.files, "main", base, r.next);
      if exists p :: p in ours && p in theirs then
        res.MergeConflicts? && NamesConflicts(ours, theirs, res.conflicts)
      else
        "main" in r.branches && res == MergedAt(if ours == map[] then r.branches["main"].head else r.next)
    ensures dryRun || !res.MergedAt? ==> s == r || s == r.(next := r.next + 1)
  {
    hide Sound, Net, NamesConflicts, Reports, MergedState, ConflictPaths;
    if b in r.branches {
      ConflictsExist(r, b);
    }
    if res.MergeConflicts? && b in r.branches {
      ConflictsAreNamed(ChangesOf(r, b), MainChanges(r, b), res.conflicts);
    }
  }

  /** The same for a rebase. */
  lemma RebaseVerdict(e: Env, r: Repo, b: string, author: string, at: Timestamp, res: RebaseResult, s: Repo)
    requires Sound(e, r) && RebaseOutcome(e, r, b, author, at, res, s)
    ensures b == "main" ==> res == RebaseFailed(BranchNotActive)
    ensures b != "main" && b !in r.branches ==> res == RebaseFailed(BranchNotFound)
    ensures b != "main" && b in r.branches && r.branches[b].status != Active ==> res == RebaseFailed(BranchNotActive)
    ensures b != "main" && b in r.branches && r.branches[b].status == Active ==>
      var base := r.branches[b].base;
      var ours, theirs := Net(r.files, b, base, r.next), Net(r.files, "main", base, r.next);
      if exists p :: p in ours && p in theirs then
        res.RebaseConflicts? && NamesConflicts(ours, theirs, res.conflicts)
      else
        && res.RebasedTo? && "main" in r.branches && res.newBase == r.branches["main"].head
        && b in s.branches && res.newHead == s.branches[b].head && res.newBase == s.branches[b].base
        && res.replayed == s.next - r.next
    ensures !res.RebasedTo? ==> s == r
  {
    hide NoOrphans, Inv, LogOk, HeadsOk, Net, NamesConflicts, Reports, RebasedState, RebaseOnto, Repeat,
      SourcesOf, ConflictPaths;
    SoundLog(e, r);
    if b in r.branches && b != MAIN {
      var ours, theirs := Net(r.files, b, r.branches[b].base, r.next), Net(r.files, "main", r.branches[b].base, r.next);
      assert ours == ChangesOf(r, b) && theirs == MainChanges(r, b);
      ConflictsExist(r, b);
      RebasedStateColumns(e, r, b, author, at);
      RebaseColumns(e, r.(next := r.next + |SourcesOf(r, b)|), b, author, at, RebaseNumbers(r, b));
      if res.RebaseConflicts? {
        ConflictsAreNamed(ChangesOf(r, b), MainChanges(r, b), res.conflicts);
      }
    }
  }
}
