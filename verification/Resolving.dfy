/**
 * The parts of a transaction that build row groups: the files of a commit request are resolved to
 * document versions, and the rows of a branch are gathered into groups by sequence.
 */
module Resolving {
  import opened Wrappers
  import opened CommitHashing
  import opened Tables
  import opened Transactions

  /** A file of a commit request; no content deletes the path. */
  datatype FileChange = FileChange(path: string, content: Option<string>)

  predicate DistinctChanges(files: seq<FileChange>) {
    forall i, j :: 0 <= i < j < |files| ==> files[i].path != files[j].path
  }

  function HashOfContent(sha: Sha, content: Option<string>): string {
    if content.None? then "" else sha(content.value)
  }

  /** "SELECT version_id FROM documents WHERE content_hash = ... LIMIT 1". */
  function FindDoc(docs: map<nat, Doc>, hash: string, k: nat): (v: Option<nat>)
    ensures v.Some? ==> v.value < k && v.value in docs && docs[v.value].contentHash == hash
    ensures v.None? ==> forall u :: u in docs && u < k ==> docs[u].contentHash != hash
  {
    if k == 0 then None
    else if k - 1 in docs && docs[k - 1].contentHash == hash then Some(k - 1)
    else FindDoc(docs, hash, k - 1)
  }

  datatype Resolution = Resolution(added: map<nat, Doc>, rows: Changes, nextVersion: nat)

  function ResolveOne(sha: Sha, docs: map<nat, Doc>, p: Resolution, f: FileChange): Resolution {
    if f.content.None? then p.(rows := p.rows[f.path := None])
    else
      var hash := sha(f.content.value);
      match FindDoc(docs + p.added, hash, p.nextVersion)
      case Some(v) => p.(rows := p.rows[f.path := Some(v)])
      case None =>
        var v := p.nextVersion;
        Resolution(p.added[v := Doc(hash)], p.rows[f.path := Some(v)], v + 1)
  }

  /** The documents to add and the version of each path, in request order. */
  function Resolve(sha: Sha, docs: map<nat, Doc>, nextVersion: nat, files: seq<FileChange>): Resolution {
    if files == [] then Resolution(map[], map[], nextVersion)
    else
      var n := |files| - 1;
      ResolveOne(sha, docs, Resolve(sha, docs, nextVersion, files[..n]), files[n])
  }

  /** What a request means for each path: the hash of its new content. */
  function HashesOf(sha: Sha, files: seq<FileChange>): map<string, string> {
    if files == [] then map[]
    else
      var n := |files| - 1;
      HashesOf(sha, files[..n])[files[n].path := HashOfContent(sha, files[n].content)]
  }

  lemma {:induction false} HashesOfOther(sha: Sha, files: seq<FileChange>, p: string)
    requires forall i :: 0 <= i < |files| ==> files[i].path != p
    ensures p !in HashesOf(sha, files)
  {
    if files != [] {
      HashesOfOther(sha, files[..|files| - 1], p);
    }
  }

  ghost predicate Below(docs: map<nat, Doc>, v: nat) { forall u :: u in docs ==> u < v }

  /** The new documents have new versions, and each is named by a row. */
  ghost predicate AddedOk(docs: map<nat, Doc>, q: Resolution) {
    && q.added.Keys !! docs.Keys && Below(docs + q.added, q.nextVersion)
    && (forall v :: v in q.added ==> Some(v) in q.rows.Values)
  }

  /** Every row names a document, and the documents hold the requested contents. */
  ghost predicate RowsOk(docs: map<nat, Doc>, rows: Changes, hashes: map<string, string>) {
    Resolved(docs, rows) && Contents(docs, rows) == hashes
  }

  lemma RowsPut(docs: map<nat, Doc>, rows: Changes, hashes: map<string, string>, p: string, v: Option<nat>)
    requires RowsOk(docs, rows, hashes) && (v.Some? ==> v.value in docs)
    ensures RowsOk(docs, rows[p := v], hashes[p := ContentOf(docs, v)])
  {
  }

  lemma RowsMoreDocs(docs: map<nat, Doc>, added: map<nat, Doc>, rows: Changes, hashes: map<string, string>)
    requires RowsOk(docs, rows, hashes) && added.Keys !! docs.Keys
    ensures RowsOk(docs + added, rows, hashes)
  {
    ContentsStable(docs, added, rows);
  }

  lemma ValuesPut(rows: Changes, p: string, v: Option<nat>)
    requires p !in rows
    ensures rows[p := v].Values == rows.Values + {v}
  {
    var more := rows[p := v];
    forall w | w in rows.Values ensures w in more.Values {
      var k :| k in rows && rows[k] == w;
      assert more[k] == w;
    }
    assert more[p] == v;
  }

  lemma ResolveOneOk(sha: Sha, docs: map<nat, Doc>, p: Resolution, f: FileChange, hashes: map<string, string>)
    requires AddedOk(docs, p) && RowsOk(docs + p.added, p.rows, hashes) && f.path !in p.rows
    ensures var q := ResolveOne(sha, docs, p, f);
      && AddedOk(docs, q) && RowsOk(docs + q.added, q.rows, hashes[f.path := HashOfContent(sha, f.content)])
  {
    hide RowsOk;
    var q := ResolveOne(sha, docs, p, f);
    var v := q.rows[f.path];
    ValuesPut(p.rows, f.path, v);
    if q.added == p.added {
      RowsPut(docs + p.added, p.rows, hashes, f.path, v);
    } else {
      var added := map[p.nextVersion := Doc(sha(f.content.value))];
      RowsMoreDocs(docs + p.added, added, p.rows, hashes);
      RowsPut(docs + p.added + added, p.rows, hashes, f.path, v);
      assert docs + q.added == docs + p.added + added;
    }
  }

  lemma ResolveOneKeys(sha: Sha, docs: map<nat, Doc>, p: Resolution, f: FileChange)
    ensures ResolveOne(sha, docs, p, f).rows.Keys == p.rows.Keys + {f.path}
    ensures p.nextVersion <= ResolveOne(sha, docs, p, f).nextVersion
  {
  }

  /** Resolution gives every path a version whose document has the hash of the requested content. */
  lemma {:induction false} ResolveMeans(sha: Sha, docs: map<nat, Doc>, nextVersion: nat, files: seq<FileChange>)
    requires DistinctChanges(files) && Below(docs, nextVersion)
    ensures var q := Resolve(sha, docs, nextVersion, files);
      && AddedOk(docs, q) && RowsOk(docs + q.added, q.rows, HashesOf(sha, files))
      && q.rows.Keys == HashesOf(sha, files).Keys && (files != [] ==> q.rows != map[])
      && nextVersion <= q.nextVersion
  {
    hide ResolveOne;
    if files == [] {
      assert docs + map[] == docs;
    } else {
      var n := |files| - 1;
      ResolveMeans(sha, docs, nextVersion, files[..n]);
      HashesOfOther(sha, files[..n], files[n].path);
      var p := Resolve(sha, docs, nextVersion, files[..n]);
      ResolveOneOk(sha, docs, p, files[n], HashesOf(sha, files[..n]));
      ResolveOneKeys(sha, docs, p, files[n]);
    }
  }

  // ---------------------------------------------------------------------------
  // Rows as lists
  // ---------------------------------------------------------------------------

  datatype FileRow = FileRow(path: string, version: Option<nat>)

  function ToChanges(l: seq<FileRow>): Changes {
    if l == [] then map[]
    else
      var n := |l| - 1;
      ToChanges(l[..n])[l[n].path := l[n].version]
  }

  predicate DistinctRows(l: seq<FileRow>) {
    forall i, j :: 0 <= i < j < |l| ==> l[i].path != l[j].path
  }

  /** l names every path of the group once, in some order. */
  predicate Lists(l: seq<FileRow>, changes: Changes) { DistinctRows(l) && ToChanges(l) == changes }

  lemma {:induction false} ToChangesHas(l: seq<FileRow>, i: nat)
    requires i < |l|
    ensures l[i].path in ToChanges(l)
  {
    if i < |l| - 1 {
      ToChangesHas(l[..|l| - 1], i);
    }
  }

  lemma {:induction false} ToChangesOther(l: seq<FileRow>, p: string)
    requires forall i :: 0 <= i < |l| ==> l[i].path != p
    ensures p !in ToChanges(l)
  {
    if l != [] {
      ToChangesOther(l[..|l| - 1], p);
    }
  }

  lemma ListsSnoc(l: seq<FileRow>, changes: Changes, row: FileRow)
    requires Lists(l, changes) && row.path !in changes
    ensures Lists(l + [row], changes[row.path := row.version])
  {
    assert (l + [row])[..|l|] == l;
    forall i | 0 <= i < |l| ensures l[i].path != row.path {
      ToChangesHas(l, i);
    }
  }

  /** "for path, version := range changes": every path once, in an order of the map's choosing. */
  method Range(changes: Changes) returns (l: seq<FileRow>)
    ensures Lists(l, changes)
  {
    l := [];
    var todo := changes.Keys;
    ghost var done: Changes := map[];
    while todo != {}
      invariant todo <= changes.Keys
      invariant done.Keys == changes.Keys - todo && (forall p :: p in done ==> done[p] == changes[p])
      invariant Lists(l, done)
      decreases |todo|
    {
      var p :| p in todo;
      ListsSnoc(l, done, FileRow(p, changes[p]));
      l := l + [FileRow(p, changes[p])];
      done := done[p := changes[p]];
      todo := todo - {p};
    }
    assert done == changes;
  }

  /** The files of a commit as they are hashed: each path with the content hash of its version. */
  function FilesOf(docs: map<nat, Doc>, l: seq<FileRow>): seq<File> {
    seq(|l|, i requires 0 <= i < |l| => File(l[i].path, ContentOf(docs, l[i].version)))
  }

  lemma {:induction false} FilesOfMean(docs: map<nat, Doc>, l: seq<FileRow>)
    ensures ToMap(FilesOf(docs, l)) == Contents(docs, ToChanges(l))
    ensures DistinctRows(l) ==> DistinctPaths(FilesOf(docs, l))
  {
    if l != [] {
      FilesOfMean(docs, l[..|l| - 1]);
      assert FilesOf(docs, l)[..|l| - 1] == FilesOf(docs, l[..|l| - 1]);
    }
  }

  function RequestFiles(sha: Sha, files: seq<FileChange>): seq<File> {
    seq(|files|, i requires 0 <= i < |files| => File(files[i].path, HashOfContent(sha, files[i].content)))
  }

  lemma {:induction false} RequestFilesMean(sha: Sha, files: seq<FileChange>)
    ensures ToMap(RequestFiles(sha, files)) == HashesOf(sha, files)
    ensures DistinctChanges(files) ==> DistinctPaths(RequestFiles(sha, files))
  {
    if files != [] {
      RequestFilesMean(sha, files[..|files| - 1]);
      assert RequestFiles(sha, files)[..|files| - 1] == RequestFiles(sha, files[..|files| - 1]);
    }
  }

  // ---------------------------------------------------------------------------
  // Commit groups
  // ---------------------------------------------------------------------------

  datatype Group = Group(seqno: nat, files: seq<FileRow>)

  /** A row of the query over file_commits. */
  datatype SeqRow = SeqRow(seqno: nat, row: FileRow)

  function RowsOfGroup(g: Group): seq<SeqRow> {
    seq(|g.files|, i requires 0 <= i < |g.files| => SeqRow(g.seqno, g.files[i]))
  }

  function Flatten(gs: seq<Group>): seq<SeqRow> {
    if gs == [] then [] else Flatten(gs[..|gs| - 1]) + RowsOfGroup(gs[|gs| - 1])
  }

  predicate Ascending(gs: seq<Group>) {
    && (forall i :: 0 <= i < |gs| ==> gs[i].files != [])
    && (forall i, j :: 0 <= i < j < |gs| ==> gs[i].seqno < gs[j].seqno)
  }

  /** One turn of the grouping loop: a new group when the sequence changes. */
  function AddRow(gs: seq<Group>, r: SeqRow): seq<Group> {
    var n := |gs| - 1;
    if gs == [] || gs[n].seqno != r.seqno then gs + [Group(r.seqno, [r.row])]
    else gs[..n] + [Group(r.seqno, gs[n].files + [r.row])]
  }

  function AddRows(gs: seq<Group>, rows: seq<SeqRow>): seq<Group> {
    if rows == [] then gs
    else AddRow(AddRows(gs, rows[..|rows| - 1]), rows[|rows| - 1])
  }

  lemma {:induction false} AddRowsAppend(gs: seq<Group>, x: seq<SeqRow>, y: seq<SeqRow>)
    ensures AddRows(gs, x + y) == AddRows(AddRows(gs, x), y)
  {
    if y == [] {
      assert x + y == x;
    } else {
      AddRowsAppend(gs, x, y[..|y| - 1]);
      assert (x + y)[..|x + y| - 1] == x + y[..|y| - 1];
    }
  }

  lemma AddNothing(gs: seq<Group>)
    ensures AddRows(gs, []) == gs
  {
  }

  lemma AddNext(gs: seq<Group>, rows: seq<SeqRow>, i: nat)
    requires i < |rows|
    ensures AddRows(gs, rows[..i + 1]) == AddRow(AddRows(gs, rows[..i]), rows[i])
  {
    assert rows[..i + 1][..i] == rows[..i];
  }

  function OpenGroup(gs: seq<Group>, seqno: nat): seq<Group> {
    if gs == [] || gs[|gs| - 1].seqno != seqno then gs + [Group(seqno, [])] else gs
  }

  lemma OpenThenAdd(gs: seq<Group>, r: SeqRow)
    ensures var grown := OpenGroup(gs, r.seqno);
      var n := |grown| - 1;
      n >= 0 && grown[n := Group(r.seqno, grown[n].files + [r.row])] == AddRow(gs, r)
  {
    var grown := OpenGroup(gs, r.seqno);
    assert [] + [r.row] == [r.row];
  }

  /** The rows of a new sequence become one group. */
  lemma {:induction false} AddGroup(gs: seq<Group>, g: Group)
    requires g.files != [] && (gs == [] || gs[|gs| - 1].seqno != g.seqno)
    ensures AddRows(gs, RowsOfGroup(g)) == gs + [g]
    decreases |g.files|
  {
    var n := |g.files| - 1;
    var rows := RowsOfGroup(g);
    assert rows[..n] == RowsOfGroup(Group(g.seqno, g.files[..n]));
    if n == 0 {
      assert AddRows(gs, rows[..0]) == gs;
      assert g.files == [g.files[0]];
    } else {
      var h := Group(g.seqno, g.files[..n]);
      AddGroup(gs, h);
      assert (gs + [h])[..|gs|] == gs;
      assert g.files == h.files + [g.files[n]];
    }
  }

  lemma {:induction false} GroupsRecovered(gs: seq<Group>)
    requires Ascending(gs)
    ensures AddRows([], Flatten(gs)) == gs
  {
    hide AddRow, AddRows, RowsOfGroup;
    if gs == [] {
      AddNothing([]);
    } else {
      var n := |gs| - 1;
      GroupsRecovered(gs[..n]);
      AddRowsAppend([], Flatten(gs[..n]), RowsOfGroup(gs[n]));
      AddGroup(gs[..n], gs[n]);
      assert gs == gs[..n] + [gs[n]];
    }
  }

  /** gs are the row groups of b above lo, in sequence order. */
  ghost predicate IsGroups(files: FileTable, b: string, lo: nat, hi: nat, gs: seq<Group>) {
    var src := GroupSeqs(files, b, lo, hi);
    && |gs| == |src|
    && (forall i :: 0 <= i < |gs| ==> gs[i].seqno == src[i] && Lists(gs[i].files, RowsAt(files, b, src[i])))
  }

  lemma GroupsAscend(files: FileTable, b: string, lo: nat, hi: nat, gs: seq<Group>)
    requires IsGroups(files, b, lo, hi, gs)
    ensures Ascending(gs)
  {
    GroupSeqsRange(files, b, lo, hi);
  }

  /** "SELECT ... WHERE branch = b AND sequence > lo ORDER BY sequence"; gs witnesses the grouping. */
  method SelectRows(files: FileTable, b: string, lo: nat, hi: nat) returns (rows: seq<SeqRow>, ghost gs: seq<Group>)
    requires lo <= hi
    ensures IsGroups(files, b, lo, hi, gs) && rows == Flatten(gs)
  {
    rows, gs := [], [];
    for n := lo to hi
      invariant IsGroups(files, b, lo, n, gs) && rows == Flatten(gs)
    {
      var changes := RowsAt(files, b, n + 1);
      if changes != map[] {
        var l := Range(changes);
        var g := Group(n + 1, l);
        assert (gs + [g])[..|gs|] == gs;
        gs := gs + [g];
        rows := rows + RowsOfGroup(g);
      }
    }
  }

  method Grow(groups: seq<Group>, r: SeqRow) returns (grown: seq<Group>)
    ensures grown == AddRow(groups, r)
  {
    hide AddRow;
    OpenThenAdd(groups, r);
    grown := groups;
    if |groups| == 0 || groups[|groups| - 1].seqno != r.seqno {
      grown := groups + [Group(r.seqno, [])];
    }
    assert grown == OpenGroup(groups, r.seqno);
    var n := |grown| - 1;
    grown := grown[n := Group(r.seqno, grown[n].files + [r.row])];
  }

  /** The loop of branchCommitGroups. */
  method GroupRows(rows: seq<SeqRow>) returns (groups: seq<Group>)
    ensures groups == AddRows([], rows)
  {
    hide AddRow, AddRows;
    AddNothing([]);
    groups := [];
    assert rows[..0] == [];
    for i := 0 to |rows|
      invariant groups == AddRows([], rows[..i])
    {
      AddNext([], rows, i);
      groups := Grow(groups, rows[i]);
    }
    assert rows[..|rows|] == rows;
  }

  /** branchCommitGroups puts the rows of each sequence together again. */
  method BranchCommitGroups(files: FileTable, b: string, lo: nat, hi: nat) returns (groups: seq<Group>)
    requires lo <= hi
    ensures IsGroups(files, b, lo, hi, groups)
  {
    ghost var gs;
    var rows: seq<SeqRow>;
    rows, gs := SelectRows(files, b, lo, hi);
    GroupsAscend(files, b, lo, hi, gs);
    GroupsRecovered(gs);
    groups := GroupRows(rows);
  }
}
