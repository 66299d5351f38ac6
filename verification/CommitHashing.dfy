/**
 * The canonical commit encoding of internal/hash. SHA-256 followed by hex is an arbitrary
 * function `sha` on strings.
 */
module CommitHashing {
  import opened Strings
  import opened Timestamps

  const GENESIS_HASH := "0000000000000000000000000000000000000000000000000000000000000000"

  type Sha = string -> string

  datatype File = File(path: string, contentHash: string)

  /** Everything a chain hash commits to, with the files as a path-to-content-hash map. */
  datatype Record = Record(
    prevHash: string, sequence: nat, repo: string, branch: string,
    author: string, message: string, createdAt: Timestamp, files: map<string, string>)

  predicate DistinctPaths(files: seq<File>) {
    forall i, j :: 0 <= i < j < |files| ==> files[i].path != files[j].path
  }

  /** The listing names exactly the paths of m, each with its content hash. */
  ghost predicate Describes(files: seq<File>, m: map<string, string>) {
    && (forall i :: 0 <= i < |files| ==> files[i].path in m && m[files[i].path] == files[i].contentHash)
    && (forall p :: p in m ==> exists i :: 0 <= i < |files| && files[i].path == p)
  }

  function Put(m: map<string, string>, f: File): map<string, string> { m[f.path := f.contentHash] }

  /** What a listing of distinct paths says about each path. */
  function ToMap(files: seq<File>): map<string, string> {
    if files == [] then map[]
    else
      var n := |files| - 1;
      Put(ToMap(files[..n]), files[n])
  }

  lemma DescribesSnoc(files: seq<File>, f: File, m: map<string, string>)
    requires Describes(files, m) && f.path !in m
    ensures Describes(files + [f], Put(m, f))
  {
    var r, m' := files + [f], Put(m, f);
    forall p | p in m' ensures exists i :: 0 <= i < |r| && r[i].path == p {
      if p == f.path {
        assert r[|files|].path == p;
      } else {
        var i :| 0 <= i < |files| && files[i].path == p;
        assert r[i].path == p;
      }
    }
  }

  lemma {:induction false} ToMapDescribes(files: seq<File>)
    requires DistinctPaths(files)
    ensures Describes(files, ToMap(files))
  {
    if files != [] {
      var n := |files| - 1;
      ToMapDescribes(files[..n]);
      DescribesSnoc(files[..n], files[n], ToMap(files[..n]));
      assert files == files[..n] + [files[n]];
    }
  }

  predicate SortedByPath(files: seq<File>) {
    forall i, j :: 0 <= i < j < |files| ==> !LexLess(files[j].path, files[i].path)
  }

  /** What slices.SortFunc may return: the same entries in path order, ties in any order. */
  ghost predicate IsSortOf(sorted: seq<File>, files: seq<File>) {
    SortedByPath(sorted) && multiset(sorted) == multiset(files)
  }

  function Line(f: File): string { f.path + ":" + f.contentHash }

  function Lines(files: seq<File>): (lines: seq<string>)
    ensures |lines| == |files|
    ensures forall i :: 0 <= i < |files| ==> lines[i] == Line(files[i])
  {
    seq(|files|, i requires 0 <= i < |files| => Line(files[i]))
  }

  function Fields(prevHash: string, sequence: nat, repo: string, branch: string, author: string): seq<string> {
    [prevHash, Decimal(sequence), repo, branch, author]
  }

  /** The lines written before the files. The message may itself hold newlines. */
  function Header(prevHash: string, sequence: nat, repo: string, branch: string, author: string, message: string,
      createdAt: Timestamp): seq<string>
  {
    Fields(prevHash, sequence, repo, branch, author) + [message] + [Format(createdAt)]
  }

  // ---------------------------------------------------------------------------
  // One path-ordered listing per map
  // ---------------------------------------------------------------------------

  ghost predicate StrictlySorted(files: seq<File>) {
    forall i, j :: 0 <= i < j < |files| ==> LexLess(files[i].path, files[j].path)
  }

  ghost predicate Listing(files: seq<File>, m: map<string, string>) {
    StrictlySorted(files) && Describes(files, m)
  }

  lemma ListingTail(files: seq<File>, m: map<string, string>)
    requires files != [] && Listing(files, m)
    ensures Listing(files[1..], m - {files[0].path})
    ensures forall p :: p in m ==> p == files[0].path || LexLess(files[0].path, p)
  {
    var rest := m - {files[0].path};
    forall i | 1 <= i < |files| ensures files[i].path != files[0].path {
      LexIrreflexive(files[0].path);
    }
    forall p | p in m ensures p == files[0].path || LexLess(files[0].path, p) {
      var i :| 0 <= i < |files| && files[i].path == p;
    }
    forall p | p in rest ensures exists i :: 0 <= i < |files[1..]| && files[1..][i].path == p {
      var i :| 0 <= i < |files| && files[i].path == p;
      assert files[1..][i - 1].path == p;
    }
  }

  /** Two path-ordered listings of the same map are the same sequence. */
  lemma {:induction false} ListingUnique(a: seq<File>, b: seq<File>, m: map<string, string>)
    requires Listing(a, m) && Listing(b, m)
    ensures a == b
    decreases |a|
  {
    hide LexLess;
    assert a != [] ==> a[0].path in m;
    assert b != [] ==> b[0].path in m;
    if a != [] && b != [] {
      ListingTail(a, m);
      ListingTail(b, m);
      LexTotal(a[0].path, b[0].path);
      ListingUnique(a[1..], b[1..], m - {a[0].path});
      assert a == [a[0]] + a[1..] && b == [b[0]] + b[1..];
    }
  }

  lemma DescribesCons(f: File, files: seq<File>, m: map<string, string>)
    requires Describes(files, m) && f.path !in m
    ensures Describes([f] + files, Put(m, f))
  {
    var r, m' := [f] + files, Put(m, f);
    forall p | p in m' ensures exists i :: 0 <= i < |r| && r[i].path == p {
      if p == f.path {
        assert r[0].path == p;
      } else {
        var i :| 0 <= i < |files| && files[i].path == p;
        assert r[i + 1].path == p;
      }
    }
  }

  lemma ListingCons(f: File, files: seq<File>, m: map<string, string>)
    requires Listing(files, m) && f.path !in m
    requires forall p :: p in m ==> LexLess(f.path, p)
    ensures Listing([f] + files, Put(m, f))
  {
    DescribesCons(f, files, m);
    assert forall i :: 0 <= i < |files| ==> files[i].path in m;
  }

  ghost function InsertSorted(f: File, files: seq<File>): seq<File> {
    if files == [] || LexLess(f.path, files[0].path) then [f] + files
    else [files[0]] + InsertSorted(f, files[1..])
  }

  lemma {:induction false} InsertSortedListing(f: File, files: seq<File>, m: map<string, string>)
    requires Listing(files, m) && f.path !in m
    ensures Listing(InsertSorted(f, files), Put(m, f))
  {
    if files != [] {
      ListingTail(files, m);
    }
    if files == [] || LexLess(f.path, files[0].path) {
      forall p | p in m ensures LexLess(f.path, p) {
        if p != files[0].path {
          LexTransitive(f.path, files[0].path, p);
        }
      }
      ListingCons(f, files, m);
    } else {
      var g := files[0];
      var rest := m - {g.path};
      InsertSortedListing(f, files[1..], rest);
      assert g.path in m;
      LexTotal(f.path, g.path);
      ListingCons(g, InsertSorted(f, files[1..]), Put(rest, f));
      assert Put(Put(rest, f), g) == Put(m, f);
    }
  }

  /** The listing of a map in path order. */
  ghost function SortedFiles(m: map<string, string>): (files: seq<File>)
    ensures Listing(files, m)
  {
    if m == map[] then []
    else
      var p :| p in m;
      InsertSortedListing(File(p, m[p]), SortedFiles(m - {p}), m - {p});
      assert Put(m - {p}, File(p, m[p])) == m;
      InsertSorted(File(p, m[p]), SortedFiles(m - {p}))
  }

  // ---------------------------------------------------------------------------
  // The encoding of a record and its unique decoding
  // ---------------------------------------------------------------------------

  /** The bytes hashed for the header of r and a listing of files. */
  function Bytes(r: Record, files: seq<File>): string {
    Cat(Header(r.prevHash, r.sequence, r.repo, r.branch, r.author, r.message, r.createdAt) + Lines(files))
  }

  ghost function Encode(r: Record): string { Bytes(r, SortedFiles(r.files)) }

  /** The chain hash of a record. */
  ghost function Digest(sha: Sha, r: Record): string { sha(Encode(r)) }

  predicate IsHex(c: char) { '0' <= c <= '9' || 'a' <= c <= 'f' }

  /** The hex SHA-256 of a content, or empty for a deleted file. */
  predicate ContentHash(h: string) {
    h == "" || (|h| == 64 && forall i :: 0 <= i < |h| ==> IsHex(h[i]))
  }

  ghost predicate CleanHeader(r: Record) {
    NoNewline(r.prevHash) && NoNewline(r.repo) && NoNewline(r.branch) && NoNewline(r.author) && r.createdAt.Valid()
  }

  predicate CleanFiles(files: seq<File>) {
    forall i :: 0 <= i < |files| ==> NoNewline(files[i].path) && ContentHash(files[i].contentHash)
  }

  ghost predicate WellFormed(r: Record) {
    CleanHeader(r) && forall p :: p in r.files ==> NoNewline(p) && ContentHash(r.files[p])
  }

  ghost function BytesLines(r: Record, files: seq<File>): seq<string> {
    Fields(r.prevHash, r.sequence, r.repo, r.branch, r.author) +
    (Split(r.message) + [Format(r.createdAt)] + Lines(files))
  }

  /** A text may be written as one line or as the lines it splits into. */
  lemma SplitInPlace(before: seq<string>, m: string, after: seq<string>)
    ensures Cat(before + ([m] + after)) == Cat(before + (Split(m) + after))
  {
    CatSplit(m);
    CatCons(m, after);
    CatAppend(Split(m), after);
    CatAppend(before, [m] + after);
    CatAppend(before, Split(m) + after);
  }

  lemma BytesAreLines(r: Record, files: seq<File>)
    ensures Bytes(r, files) == Cat(BytesLines(r, files))
  {
    var first := Fields(r.prevHash, r.sequence, r.repo, r.branch, r.author);
    var time, body := [Format(r.createdAt)], Lines(files);
    SplitInPlace(first, r.message, time + body);
    assert first + [r.message] + time + body == first + ([r.message] + (time + body));
    assert Split(r.message) + time + body == Split(r.message) + (time + body);
  }

  /** A file line never ends like a timestamp line. */
  lemma FileLineShape(f: File)
    requires NoNewline(f.path) && ContentHash(f.contentHash)
    ensures NoNewline(Line(f)) && !EndsIn(Line(f), 'Z')
    ensures EndsIn(Line(f), ':') <==> f.contentHash == ""
  {
    var l := Line(f);
    assert l[|l| - 1] == if f.contentHash == "" then ':' else f.contentHash[|f.contentHash| - 1];
  }

  lemma FileLineInjective(f: File, g: File)
    requires NoNewline(f.path) && ContentHash(f.contentHash)
    requires NoNewline(g.path) && ContentHash(g.contentHash)
    requires Line(f) == Line(g)
    ensures f == g
  {
    FileLineShape(f);
    FileLineShape(g);
    var n := |Line(f)| - |f.contentHash|;
    assert f.contentHash == Line(f)[n..] && g.contentHash == Line(g)[n..];
    assert f.path == Line(f)[..n - 1] && g.path == Line(g)[..n - 1];
  }

  lemma BytesLinesClean(r: Record, files: seq<File>)
    requires CleanHeader(r) && CleanFiles(files)
    ensures forall l :: l in BytesLines(r, files) ==> NoNewline(l)
    ensures forall l :: l in Lines(files) ==> !EndsIn(l, 'Z')
  {
    forall l | l in Lines(files) ensures NoNewline(l) && !EndsIn(l, 'Z') {
      var i :| 0 <= i < |files| && Lines(files)[i] == l;
      FileLineShape(files[i]);
    }
  }

  lemma SameFront(f: seq<string>, t: seq<string>, g: seq<string>, u: seq<string>)
    requires |f| == |g| && f + t == g + u
    ensures f == g && t == u
  {
    assert f == (f + t)[..|f|] && g == (g + u)[..|g|];
    assert t == (f + t)[|f|..] && u == (g + u)[|g|..];
  }

  lemma FieldsInjective(a: Record, b: Record)
    requires Fields(a.prevHash, a.sequence, a.repo, a.branch, a.author)
          == Fields(b.prevHash, b.sequence, b.repo, b.branch, b.author)
    ensures a.prevHash == b.prevHash && a.sequence == b.sequence && a.repo == b.repo
    ensures a.branch == b.branch && a.author == b.author
  {
    var f := Fields(a.prevHash, a.sequence, a.repo, a.branch, a.author);
    assert f[0] == a.prevHash && f[1] == Decimal(a.sequence) && f[2] == a.repo;
    assert f[3] == a.branch && f[4] == a.author;
    DecimalInjective(a.sequence, b.sequence);
  }

  lemma LinesInjective(fa: seq<File>, fb: seq<File>)
    requires CleanFiles(fa) && CleanFiles(fb) && Lines(fa) == Lines(fb)
    ensures fa == fb
  {
    assert |fa| == |Lines(fa)| == |Lines(fb)| == |fb|;
    forall i | 0 <= i < |fa| ensures fa[i] == fb[i] {
      assert Lines(fa)[i] == Lines(fb)[i];
      FileLineInjective(fa[i], fb[i]);
    }
  }

  lemma BytesLinesInjective(a: Record, fa: seq<File>, b: Record, fb: seq<File>)
    requires CleanHeader(a) && CleanHeader(b) && CleanFiles(fa) && CleanFiles(fb)
    ensures BytesLines(a, fa) == BytesLines(b, fb) ==> a.(files := map[]) == b.(files := map[]) && fa == fb
  {
    if BytesLines(a, fa) == BytesLines(b, fb) {
      SameFront(Fields(a.prevHash, a.sequence, a.repo, a.branch, a.author),
                Split(a.message) + [Format(a.createdAt)] + Lines(fa),
                Fields(b.prevHash, b.sequence, b.repo, b.branch, b.author),
                Split(b.message) + [Format(b.createdAt)] + Lines(fb));
      FieldsInjective(a, b);
      BytesLinesClean(a, fa);
      BytesLinesClean(b, fb);
      LastMarker(Split(a.message), Format(a.createdAt), Lines(fa),
                 Split(b.message), Format(b.createdAt), Lines(fb), 'Z');
      FormatInjective(a.createdAt, b.createdAt);
      SplitInjective(a.message, b.message);
      LinesInjective(fa, fb);
    }
  }

  /** Equal bytes come from equal headers and equal listings. */
  lemma BytesInjective(a: Record, fa: seq<File>, b: Record, fb: seq<File>)
    requires CleanHeader(a) && CleanHeader(b) && CleanFiles(fa) && CleanFiles(fb)
    ensures Bytes(a, fa) == Bytes(b, fb) ==> a.(files := map[]) == b.(files := map[]) && fa == fb
  {
    BytesAreLines(a, fa);
    BytesAreLines(b, fb);
    BytesLinesClean(a, fa);
    BytesLinesClean(b, fb);
    if Bytes(a, fa) == Bytes(b, fb) {
      CatInjective(BytesLines(a, fa), BytesLines(b, fb));
      BytesLinesInjective(a, fa, b, fb);
    }
  }

  lemma ListingClean(files: seq<File>, m: map<string, string>)
    requires Listing(files, m) && (forall p :: p in m ==> NoNewline(p) && ContentHash(m[p]))
    ensures CleanFiles(files)
  {
  }

  lemma DescribedOnce(files: seq<File>, a: map<string, string>, b: map<string, string>)
    requires Describes(files, a) && Describes(files, b)
    ensures a == b
  {
  }

  /**
   * The encoding is uniquely decodable: one-line fields, hex content hashes and an arbitrary
   * multi-line message leave only one record with a given encoding.
   */
  lemma EncodeInjective(a: Record, b: Record)
    requires WellFormed(a) && WellFormed(b)
    ensures Encode(a) == Encode(b) ==> a == b
  {
    ListingClean(SortedFiles(a.files), a.files);
    ListingClean(SortedFiles(b.files), b.files);
    BytesInjective(a, SortedFiles(a.files), b, SortedFiles(b.files));
    if Encode(a) == Encode(b) {
      DescribedOnce(SortedFiles(a.files), a.files, b.files);
    }
  }

  /** A line holding a newline reads as two lines. */
  lemma LineReadsAsTwo(before: seq<string>, x: string, y: string, after: seq<string>)
    ensures Cat(before + [x + "\n" + y] + after) == Cat(before + [x, y] + after)
  {
    CatCons(x + "\n" + y, after);
    CatCons(y, after);
    CatCons(x, [y] + after);
    assert x + "\n" + y + "\n" + Cat(after) == x + "\n" + (y + "\n" + Cat(after));
    assert before + [x + "\n" + y] + after == before + ([x + "\n" + y] + after);
    assert before + [x, y] + after == before + ([x] + ([y] + after));
    CatAppend(before, [x + "\n" + y] + after);
    CatAppend(before, [x] + ([y] + after));
  }

  ghost function LinesBefore(r: Record): seq<string> { [r.prevHash, Decimal(r.sequence), r.repo, r.branch] }

  ghost function LinesAfter(r: Record): seq<string> { [Format(r.createdAt)] + Lines(SortedFiles(r.files)) }

  lemma Regroup(a: seq<string>, b: seq<string>, c: seq<string>, d: seq<string>)
    ensures a + b + c + d == a + (b + (c + d))
    ensures a + b + c + d == a + b + (c + d)
  {
  }

  lemma EncodeParts(r: Record)
    ensures Encode(r) == Cat(LinesBefore(r) + [r.author] + ([r.message] + LinesAfter(r)))
    ensures Encode(r) == Cat(LinesBefore(r) + [r.author] + [r.message] + LinesAfter(r))
  {
    var first := Fields(r.prevHash, r.sequence, r.repo, r.branch, r.author);
    assert first == LinesBefore(r) + [r.author];
    Regroup(first, [r.message], [Format(r.createdAt)], Lines(SortedFiles(r.files)));
  }

  /** Without the one-line rule on authors two different records share an encoding. */
  lemma NewlinesCollide(r: Record, rest: string)
    ensures Encode(r.(author := r.author + "\n" + rest)) ==
            Encode(r.(message := rest + "\n" + r.message))
  {
    var first, last := LinesBefore(r), LinesAfter(r);
    EncodeParts(r.(author := r.author + "\n" + rest));
    EncodeParts(r.(message := rest + "\n" + r.message));
    LineReadsAsTwo(first, r.author, rest, [r.message] + last);
    LineReadsAsTwo(first + [r.author], rest, r.message, last);
    assert first + [r.author, rest] + ([r.message] + last) == first + [r.author] + [rest, r.message] + last;
  }

  // ---------------------------------------------------------------------------
  // The hash as it is computed
  // ---------------------------------------------------------------------------

  lemma NotLessTransitive(a: string, b: string, c: string)
    requires !LexLess(b, a) && !LexLess(c, b)
    ensures !LexLess(c, a)
  {
    LexTotal(a, b);
    LexTotal(b, c);
    LexTotal(a, c);
    if a != b && b != c {
      LexTransitive(a, b, c);
    }
  }

  function Swap(s: seq<File>, j: nat): seq<File>
    requires 0 < j < |s|
  {
    s[j := s[j - 1]][j - 1 := s[j]]
  }

  lemma SwapMultiset(s: seq<File>, j: nat)
    requires 0 < j < |s|
    ensures multiset(Swap(s, j)) == multiset(s)
  {
    assert s == s[..j - 1] + [s[j - 1], s[j]] + s[j + 1..];
    assert Swap(s, j) == s[..j - 1] + [s[j], s[j - 1]] + s[j + 1..];
  }

  /** The first n entries are in order, except that the one at j may be too late. */
  predicate SortedBut(s: seq<File>, n: nat, j: nat)
    requires n <= |s|
  {
    forall p, q :: 0 <= p < q < n && q != j ==> !LexLess(s[q].path, s[p].path)
  }

  lemma SortedButStep(s: seq<File>, n: nat, j: nat)
    requires 0 < j < n <= |s| && SortedBut(s, n, j) && LexLess(s[j].path, s[j - 1].path)
    ensures SortedBut(Swap(s, j), n, j - 1)
  {
    LexTotal(s[j].path, s[j - 1].path);
  }

  lemma SortedButDone(s: seq<File>, n: nat, j: nat)
    requires j < n <= |s| && SortedBut(s, n, j)
    requires j > 0 ==> !LexLess(s[j].path, s[j - 1].path)
    ensures SortedBut(s, n, n)
  {
    forall p | 0 <= p < j ensures !LexLess(s[j].path, s[p].path) {
      if p < j - 1 {
        NotLessTransitive(s[p].path, s[j - 1].path, s[j].path);
      }
    }
  }

  method Sift(a: array<File>, i: nat)
    requires i < a.Length && SortedBut(a[..], i, i)
    modifies a
    ensures SortedBut(a[..], i + 1, i + 1) && multiset(a[..]) == multiset(old(a[..]))
  {
    var j := i;
    while j > 0 && LexLess(a[j].path, a[j - 1].path)
      invariant 0 <= j <= i
      invariant SortedBut(a[..], i + 1, j)
      invariant multiset(a[..]) == multiset(old(a[..]))
    {
      ghost var s := a[..];
      SortedButStep(s, i + 1, j);
      SwapMultiset(s, j);
      a[j], a[j - 1] := a[j - 1], a[j];
      assert a[..] == Swap(s, j);
      j := j - 1;
    }
    SortedButDone(a[..], i + 1, j);
  }

  /** The sort of a cloned slice, in place. */
  method SortByPath(a: array<File>)
    modifies a
    ensures IsSortOf(a[..], old(a[..]))
  {
    for i := 0 to a.Length
      invariant SortedBut(a[..], i, i)
      invariant multiset(a[..]) == multiset(old(a[..]))
    {
      Sift(a, i);
    }
  }

  /** A hash.Hash: the bytes written so far. */
  class Hasher {
    var written: string

    constructor ()
      ensures written == ""
    {
      written := "";
    }

    method Write(p: string)
      modifies this
      ensures written == old(written) + p
    {
      written := written + p;
    }

    function Sum(sha: Sha): string
      reads this
    {
      sha(written)
    }
  }

  lemma OnceInFiles(files: seq<File>, f: File)
    requires DistinctPaths(files)
    ensures multiset(files)[f] <= 1
  {
    if f in multiset(files) {
      var x :| 0 <= x < |files| && files[x] == f;
      assert files == files[..x] + [f] + files[x + 1..];
      assert f !in files[..x] && f !in files[x + 1..];
    }
  }

  lemma TwiceCounts(s: seq<File>, i: nat, j: nat)
    requires i < j < |s| && s[i] == s[j]
    ensures multiset(s)[s[i]] >= 2
  {
    assert s == s[..j] + [s[j]] + s[j + 1..];
    assert s[i] in multiset(s[..j]) by { assert s[..j][i] == s[i]; }
  }

  lemma DistinctOnce(files: seq<File>, sorted: seq<File>, i: nat, j: nat)
    requires DistinctPaths(files) && multiset(sorted) == multiset(files)
    requires i < j < |sorted|
    ensures sorted[i].path != sorted[j].path
  {
    var f, g := sorted[i], sorted[j];
    assert f in multiset(files) && g in multiset(files);
    var x :| 0 <= x < |files| && files[x] == f;
    var y :| 0 <= y < |files| && files[y] == g;
    OnceInFiles(files, f);
    if f == g {
      TwiceCounts(sorted, i, j);
    }
  }

  /** Distinct paths leave a single sorted order. */
  lemma SortedDistinct(sorted: seq<File>, files: seq<File>)
    requires IsSortOf(sorted, files) && DistinctPaths(files)
    ensures sorted == SortedFiles(ToMap(files))
  {
    ToMapDescribes(files);
    var m := ToMap(files);
    forall i | 0 <= i < |sorted| ensures sorted[i] in files {
      assert sorted[i] in multiset(sorted);
    }
    forall i, j | 0 <= i < j < |sorted| ensures LexLess(sorted[i].path, sorted[j].path) {
      LexTotal(sorted[i].path, sorted[j].path);
      DistinctOnce(files, sorted, i, j);
    }
    forall p | p in m ensures exists i :: 0 <= i < |sorted| && sorted[i].path == p {
      var i :| 0 <= i < |files| && files[i].path == p;
      assert files[i] in multiset(sorted);
      var k :| 0 <= k < |sorted| && sorted[k] == files[i];
    }
    assert Listing(sorted, m);
    ListingUnique(sorted, SortedFiles(m), m);
  }

  lemma CatSnoc(lines: seq<string>, l: string)
    ensures Cat(lines + [l]) == Cat(lines) + (l + "\n")
  {
    CatAppend(lines, [l]);
    CatCons(l, []);
    assert [l] + [] == [l];
    assert l + "\n" + Cat([]) == l + "\n";
  }

  lemma CatTake(lines: seq<string>, k: nat)
    requires k < |lines|
    ensures Cat(lines[..k + 1]) == Cat(lines[..k]) + (lines[k] + "\n")
  {
    CatSnoc(lines[..k], lines[k]);
    assert lines[..k] + [lines[k]] == lines[..k + 1];
  }

  lemma HeaderBytes(prevHash: string, sequence: nat, repo: string, branch: string, author: string, message: string,
      createdAt: Timestamp)
    ensures "" + (prevHash + "\n") + (Decimal(sequence) + "\n") + (repo + "\n") + (branch + "\n") +
            (author + "\n") + (message + "\n") + (Format(createdAt) + "\n")
         == Cat(Header(prevHash, sequence, repo, branch, author, message, createdAt))
  {
    var h := Header(prevHash, sequence, repo, branch, author, message, createdAt);
    assert h[..0] == [] && h[..7] == h;
    CatTake(h, 0);
    CatTake(h, 1);
    CatTake(h, 2);
    CatTake(h, 3);
    CatTake(h, 4);
    CatTake(h, 5);
    CatTake(h, 6);
  }

  method WriteHeader(h: Hasher, prevHash: string, sequence: nat, repo: string, branch: string, author: string,
      message: string, createdAt: Timestamp)
    requires h.written == ""
    modifies h
    ensures h.written == Cat(Header(prevHash, sequence, repo, branch, author, message, createdAt))
  {
    h.Write(prevHash + "\n");
    h.Write(Decimal(sequence) + "\n");
    h.Write(repo + "\n");
    h.Write(branch + "\n");
    h.Write(author + "\n");
    h.Write(message + "\n");
    h.Write(Format(createdAt) + "\n");
    HeaderBytes(prevHash, sequence, repo, branch, author, message, createdAt);
  }

  /** The canonical text: seven lines for the fields, then the lines of the files. */
  lemma BytesText(r: Record, files: seq<File>)
    ensures Bytes(r, files)
         == "" + (r.prevHash + "\n") + (Decimal(r.sequence) + "\n") + (r.repo + "\n") + (r.branch + "\n")
              + (r.author + "\n") + (r.message + "\n") + (Format(r.createdAt) + "\n") + Cat(Lines(files))
  {
    HeaderBytes(r.prevHash, r.sequence, r.repo, r.branch, r.author, r.message, r.createdAt);
    CatAppend(Header(r.prevHash, r.sequence, r.repo, r.branch, r.author, r.message, r.createdAt), Lines(files));
  }

  /** One line of the text per file: its path, a colon and its content hash. */
  lemma FilesText(files: seq<File>, f: File)
    ensures Cat(Lines([])) == ""
    ensures Cat(Lines(files + [f])) == Cat(Lines(files)) + f.path + ":" + f.contentHash + "\n"
  {
    assert Lines(files + [f]) == Lines(files) + [f.path + ":" + f.contentHash];
    CatSnoc(Lines(files), f.path + ":" + f.contentHash);
  }

  lemma GoldenFields()
    ensures Fixed(2024, 4) == "2024" && Fixed(1, 2) == "01" && Fixed(15, 2) == "15" && Fixed(12, 2) == "12"
    ensures Fixed(0, 2) == "00"
  {
    assert Fixed(2, 1) == "2" && Fixed(1, 1) == "1" && Fixed(0, 1) == "0";
    assert Fixed(20, 2) == "20" && Fixed(202, 3) == "202";
  }

  lemma GoldenTime()
    ensures Format(Timestamp(2024, 1, 15, 12, 0, 0, 0)) == "2024-01-15T12:00:00Z"
  {
    hide Fixed;
    assert Fixed(2024, 4) == "2024" && Fixed(1, 2) == "01" && Fixed(15, 2) == "15" && Fixed(12, 2) == "12"
      && Fixed(0, 2) == "00" by { GoldenFields(); }
  }

  /** The text that the golden test of the hash is about. */
  lemma GoldenText()
    ensures Bytes(Record(GENESIS_HASH, 1, "org/repo", "main", "alice@example.com", "initial commit",
                         Timestamp(2024, 1, 15, 12, 0, 0, 0), map[]), [File("README.md", "deadbeef")])
         == "" + (GENESIS_HASH + "\n") + "1\n" + "org/repo\n" + "main\n" + "alice@example.com\n" + "initial commit\n"
              + "2024-01-15T12:00:00Z\n" + "README.md:deadbeef\n"
  {
    hide Format, Bytes, Cat, Lines;
    var at, f := Timestamp(2024, 1, 15, 12, 0, 0, 0), File("README.md", "deadbeef");
    BytesText(Record(GENESIS_HASH, 1, "org/repo", "main", "alice@example.com", "initial commit", at, map[]), [f]);
    assert [] + [f] == [f];
    FilesText([], f);
    GoldenTime();
    assert Decimal(1) + "\n" == "1\n";
    assert "org/repo" + "\n" == "org/repo\n" && "main" + "\n" == "main\n";
    assert "alice@example.com" + "\n" == "alice@example.com\n" && "initial commit" + "\n" == "initial commit\n";
    assert Format(at) + "\n" == "2024-01-15T12:00:00Z\n";
    assert Cat(Lines([f])) == "README.md:deadbeef\n";
  }

  method WriteFiles(h: Hasher, sorted: seq<File>)
    modifies h
    ensures h.written == old(h.written) + Cat(Lines(sorted))
  {
    assert Lines(sorted)[..0] == [];
    for i := 0 to |sorted|
      invariant h.written == old(h.written) + Cat(Lines(sorted)[..i])
    {
      h.Write(sorted[i].path + ":" + sorted[i].contentHash + "\n");
      CatTake(Lines(sorted), i);
    }
    assert Lines(sorted)[..|sorted|] == Lines(sorted);
  }

  /**
   * CommitHash sorts a clone of the files and hashes one line per field and per file. For
   * distinct paths the result is the chain hash of the record, whatever the order of `files`.
   */
  method CommitHash(sha: Sha, prevHash: string, sequence: nat, repo: string, branch: string, author: string,
      message: string, createdAt: Timestamp, files: seq<File>)
    returns (hex: string)
    ensures exists sorted ::
              && IsSortOf(sorted, files)
              && hex == sha(Bytes(Record(prevHash, sequence, repo, branch, author, message, createdAt, map[]), sorted))
    ensures DistinctPaths(files) ==>
      hex == Digest(sha, Record(prevHash, sequence, repo, branch, author, message, createdAt, ToMap(files)))
  {
    var a := new File[|files|](i requires 0 <= i < |files| => files[i]);
    assert a[..] == files;
    SortByPath(a);
    var h := new Hasher();
    WriteHeader(h, prevHash, sequence, repo, branch, author, message, createdAt);
    WriteFiles(h, a[..]);
    CatAppend(Header(prevHash, sequence, repo, branch, author, message, createdAt), Lines(a[..]));
    hex := h.Sum(sha);
    if DistinctPaths(files) {
      SortedDistinct(a[..], files);
    }
  }

  // ---------------------------------------------------------------------------
  // When the order of the files cannot be seen
  // ---------------------------------------------------------------------------

  /** A path named twice is named with one content hash. */
  predicate Consistent(files: seq<File>) {
    forall i, j :: 0 <= i < j < |files| && files[i].path == files[j].path ==>
      files[i].contentHash == files[j].contentHash
  }

  ghost predicate OneOrder(files: seq<File>) {
    forall s, t :: IsSortOf(s, files) && IsSortOf(t, files) ==> Cat(Lines(s)) == Cat(Lines(t))
  }

  lemma SameHead(s: seq<File>, t: seq<File>)
    requires SortedByPath(s) && SortedByPath(t) && multiset(s) == multiset(t)
    requires Consistent(s) && s != [] && t != []
    ensures s[0] == t[0]
  {
    assert s[0] in multiset(t) && t[0] in multiset(s);
    var i :| 0 <= i < |t| && t[i] == s[0];
    var j :| 0 <= j < |s| && s[j] == t[0];
    LexTotal(s[0].path, t[0].path);
  }

  lemma TailMultiset(s: seq<File>)
    requires s != []
    ensures multiset(s[1..]) == multiset(s) - multiset{s[0]}
  {
    assert s == [s[0]] + s[1..];
  }

  lemma {:induction false} ConsistentSortsEqual(s: seq<File>, t: seq<File>)
    requires SortedByPath(s) && SortedByPath(t) && multiset(s) == multiset(t)
    requires Consistent(s)
    ensures s == t
    decreases |s|
  {
    assert |s| == |multiset(s)| == |multiset(t)| == |t|;
    if s != [] {
      SameHead(s, t);
      TailMultiset(s);
      TailMultiset(t);
      ConsistentSortsEqual(s[1..], t[1..]);
      assert s == [s[0]] + s[1..] && t == [t[0]] + t[1..];
    }
  }

  lemma PairBetween(a: seq<File>, f: File, g: File, b: seq<File>)
    requires SortedByPath(a) && SortedByPath(b) && f.path == g.path
    requires forall i :: 0 <= i < |a| ==> !LexLess(f.path, a[i].path)
    requires forall i :: 0 <= i < |b| ==> !LexLess(b[i].path, f.path)
    ensures SortedByPath(a + [f, g] + b)
  {
    LexIrreflexive(f.path);
    var s, n := a + [f, g] + b, |a|;
    forall i, j | 0 <= i < j < |s| ensures !LexLess(s[j].path, s[i].path) {
      if i < n && n + 2 <= j {
        NotLessTransitive(a[i].path, f.path, b[j - n - 2].path);
      }
    }
  }

  /** Puts f and g, which share a path, next to each other in a sorted listing. */
  lemma {:induction false} PlacePair(s: seq<File>, f: File, g: File) returns (a: seq<File>, b: seq<File>)
    requires SortedByPath(s) && f.path == g.path
    ensures s == a + b && SortedByPath(a + [f, g] + b)
  {
    var k := 0;
    while k < |s| && LexLess(s[k].path, f.path)
      invariant 0 <= k <= |s|
      invariant forall i :: 0 <= i < k ==> LexLess(s[i].path, f.path)
    {
      k := k + 1;
    }
    forall i | 0 <= i < k ensures !LexLess(f.path, s[i].path) {
      LexTotal(s[i].path, f.path);
    }
    forall i | k <= i < |s| ensures !LexLess(s[i].path, f.path) {
      if i > k {
        NotLessTransitive(f.path, s[k].path, s[i].path);
      }
    }
    a, b := s[..k], s[k..];
    PairBetween(a, f, g, b);
  }

  lemma {:induction false} SortExists(files: seq<File>) returns (sorted: seq<File>)
    ensures IsSortOf(sorted, files)
  {
    if files == [] {
      sorted := [];
    } else {
      var f := files[0];
      var rest := SortExists(files[1..]);
      assert files == [f] + files[1..];
      var a, b := PlacePair(rest, f, f);
      sorted := a + [f] + b;
      var two := a + [f, f] + b;
      forall i, j | 0 <= i < j < |sorted| ensures !LexLess(sorted[j].path, sorted[i].path) {
        assert sorted[i] == two[if i <= |a| then i else i + 1];
        assert sorted[j] == two[if j <= |a| then j else j + 1];
      }
    }
  }

  lemma FirstLinesDiffer(f: File, u: string, g: File, v: string)
    requires f.path == g.path && f.contentHash != g.contentHash
    requires ContentHash(f.contentHash) && ContentHash(g.contentHash)
    ensures Line(f) + "\n" + u != Line(g) + "\n" + v
  {
    var x, y, n := Line(f) + "\n" + u, Line(g) + "\n" + v, |f.path| + 1;
    assert x[n..] == f.contentHash + "\n" + u;
    assert y[n..] == g.contentHash + "\n" + v;
    if x == y {
      FirstLine(f.contentHash, u, g.contentHash, v);
    }
  }

  lemma CancelPrefix(p: string, x: string, y: string)
    ensures p + x == p + y ==> x == y
  {
    assert x == (p + x)[|p|..] && y == (p + y)[|p|..];
  }

  lemma DifferAfter(a: seq<string>, f: File, u: seq<string>, g: File, v: seq<string>)
    requires f.path == g.path && f.contentHash != g.contentHash
    requires ContentHash(f.contentHash) && ContentHash(g.contentHash)
    ensures Cat(a + ([Line(f)] + u)) != Cat(a + ([Line(g)] + v))
  {
    CatAppend(a, [Line(f)] + u);
    CatAppend(a, [Line(g)] + v);
    CatCons(Line(f), u);
    CatCons(Line(g), v);
    FirstLinesDiffer(f, Cat(u), g, Cat(v));
    CancelPrefix(Cat(a), Cat([Line(f)] + u), Cat([Line(g)] + v));
  }

  lemma PairIsSort(files: seq<File>, others: seq<File>, f: File, g: File, a: seq<File>, b: seq<File>)
    requires multiset(files) == multiset(others) + multiset{f, g}
    requires IsSortOf(a + b, others) && SortedByPath(a + [f, g] + b)
    ensures IsSortOf(a + [f, g] + b, files)
  {
    assert multiset(a + [f, g] + b) == multiset(a + b) + multiset{f, g};
  }

  lemma LinesOfPair(a: seq<File>, f: File, g: File, b: seq<File>)
    ensures Lines(a + [f, g] + b) == Lines(a) + ([Line(f)] + ([Line(g)] + Lines(b)))
  {
  }

  lemma NotOneOrder(files: seq<File>, s: seq<File>, t: seq<File>)
    requires IsSortOf(s, files) && IsSortOf(t, files) && Cat(Lines(s)) != Cat(Lines(t))
    ensures !OneOrder(files)
  {
  }

  lemma SwapKeepsSorted(a: seq<File>, f: File, g: File, b: seq<File>)
    requires f.path == g.path && SortedByPath(a + [f, g] + b)
    ensures SortedByPath(a + [g, f] + b)
  {
    var s, t := a + [f, g] + b, a + [g, f] + b;
    assert |s| == |t|;
    assert forall i :: 0 <= i < |s| ==> s[i].path == t[i].path;
  }

  /** A path listed with two content hashes has two sorts with different bytes. */
  lemma TwoOrders(files: seq<File>, others: seq<File>, f: File, g: File)
    requires multiset(files) == multiset(others) + multiset{f, g}
    requires f.path == g.path && f.contentHash != g.contentHash
    requires ContentHash(f.contentHash) && ContentHash(g.contentHash)
    ensures !OneOrder(files)
  {
    var rest := SortExists(others);
    var a, b := PlacePair(rest, f, g);
    SwapKeepsSorted(a, f, g, b);
    assert multiset{f, g} == multiset{g, f};
    PairIsSort(files, others, f, g, a, b);
    PairIsSort(files, others, g, f, a, b);
    LinesOfPair(a, f, g, b);
    LinesOfPair(a, g, f, b);
    DifferAfter(Lines(a), f, [Line(g)] + Lines(b), g, [Line(f)] + Lines(b));
    NotOneOrder(files, a + [f, g] + b, a + [g, f] + b);
  }

  lemma ConsistentPermutation(files: seq<File>, s: seq<File>)
    requires Consistent(files) && multiset(s) == multiset(files)
    ensures Consistent(s)
  {
    forall i, j | 0 <= i < j < |s| && s[i].path == s[j].path ensures s[i].contentHash == s[j].contentHash {
      assert s[i] in multiset(files) && s[j] in multiset(files);
      var x :| 0 <= x < |files| && files[x] == s[i];
      var y :| 0 <= y < |files| && files[y] == s[j];
    }
  }

  /**
   * slices.SortFunc leaves ties in any order. The bytes hashed are independent of the order of
   * the files exactly when no path is listed with two different content hashes.
   */
  lemma OrderFreeIff(files: seq<File>)
    requires forall i :: 0 <= i < |files| ==> ContentHash(files[i].contentHash)
    ensures OneOrder(files) <==> Consistent(files)
  {
    if Consistent(files) {
      forall s, t | IsSortOf(s, files) && IsSortOf(t, files) ensures Cat(Lines(s)) == Cat(Lines(t)) {
        ConsistentPermutation(files, s);
        ConsistentSortsEqual(s, t);
      }
    } else {
      var i, j :| 0 <= i < j < |files| && files[i].path == files[j].path &&
                  files[i].contentHash != files[j].contentHash;
      assert files == files[..i] + [files[i]] + files[i + 1..j] + [files[j]] + files[j + 1..];
      TwoOrders(files, files[..i] + files[i + 1..j] + files[j + 1..], files[i], files[j]);
    }
  }
}
