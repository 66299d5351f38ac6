/**
 * scrubLogs of internal/executor: every secret is replaced by "***" in the build log, in whatever
 * order the map yields them. A byte is a char.
 */
module ScrubLogs {
  const MASK := "***"

  predicate OccursAt(s: string, i: nat, w: string) { i + |w| <= |s| && s[i..i + |w|] == w }

  predicate Contains(s: string, w: string) { exists i :: 0 <= i <= |s| && OccursAt(s, i, w) }

  /** bytes.ReplaceAll(s, v, "***"): leftmost matches, not overlapping. */
  function ReplaceAll(s: string, v: string): string
    requires v != ""
    decreases |s|
  {
    if |s| < |v| then s
    else if s[..|v|] == v then MASK + ReplaceAll(s[|v|..], v)
    else [s[0]] + ReplaceAll(s[1..], v)
  }

  /** The replacements one after another; an empty secret is skipped. */
  function Scrub(vs: seq<string>, s: string): string {
    if vs == [] then s
    else
      var n := |vs| - 1;
      var t := Scrub(vs[..n], s);
      if vs[n] == "" then t else ReplaceAll(t, vs[n])
  }

  /** A secret the mask cannot be part of: no '*' at either end and no "***" inside. */
  predicate Inert(w: string) { w != "" && w[0] != '*' && w[|w| - 1] != '*' && !Contains(w, MASK) }

  // ---------------------------------------------------------------------------
  // What a replacement is
  // ---------------------------------------------------------------------------

  function JoinWith(parts: seq<string>, sep: string): string {
    if |parts| == 0 then "" else if |parts| == 1 then parts[0] else parts[0] + sep + JoinWith(parts[1..], sep)
  }

  /** In each part but the last, followed by v, the first v is the one that follows; in the last there is none. */
  ghost predicate FirstMatches(parts: seq<string>, v: string) {
    && (forall i, k :: 0 <= i < |parts| - 1 && 0 <= k < |parts[i]| ==> !OccursAt(parts[i] + v, k, v))
    && (parts != [] ==> !Contains(parts[|parts| - 1], v))
  }

  lemma JoinCons(x: string, parts: seq<string>, sep: string)
    requires parts != []
    ensures JoinWith([x] + parts, sep) == x + sep + JoinWith(parts, sep)
    ensures JoinWith([x + parts[0]] + parts[1..], sep) == x + JoinWith(parts, sep)
  {
    assert ([x] + parts)[1..] == parts;
    assert ([x + parts[0]] + parts[1..])[1..] == parts[1..];
    if |parts| > 1 {
      assert (x + parts[0]) + sep + JoinWith(parts[1..], sep) == x + (parts[0] + sep + JoinWith(parts[1..], sep));
    }
  }

  lemma LongerFirst(c: char, parts: seq<string>, v: string)
    requires v != "" && parts != [] && FirstMatches(parts, v)
    requires var s := [c] + JoinWith(parts, v); |s| < |v| || s[..|v|] != v
    ensures FirstMatches([[c] + parts[0]] + parts[1..], v)
  {
    var longer := [[c] + parts[0]] + parts[1..];
    var s := [c] + JoinWith(parts, v);
    if |parts| > 1 {
      assert s[..|parts[0]| + 1 + |v|] == longer[0] + v;
      forall k | 0 <= k < |longer[0]| ensures !OccursAt(longer[0] + v, k, v) {
        if k == 0 {
          assert (longer[0] + v)[..|v|] == s[..|v|];
        } else {
          assert (longer[0] + v)[k..] == (parts[0] + v)[k - 1..];
          assert !OccursAt(parts[0] + v, k - 1, v);
          assert k + |v| <= |longer[0] + v| ==> (longer[0] + v)[k..k + |v|] == (parts[0] + v)[k - 1..k - 1 + |v|];
        }
      }
    } else {
      assert s == longer[0];
      forall k | 0 <= k <= |s| ensures !OccursAt(s, k, v) {
        if k > 0 {
          assert !OccursAt(parts[0], k - 1, v);
          assert k + |v| <= |s| ==> s[k..k + |v|] == parts[0][k - 1..k - 1 + |v|];
        }
      }
    }
  }

  /**
   * bytes.ReplaceAll: the text is cut at the first occurrence of v, and after it at the first
   * again, to the end, and "***" takes the place of each.
   */
  lemma {:induction false} ReplaceAllCuts(s: string, v: string) returns (parts: seq<string>)
    requires v != ""
    ensures parts != [] && FirstMatches(parts, v)
    ensures s == JoinWith(parts, v) && ReplaceAll(s, v) == JoinWith(parts, "***")
    decreases |s|
  {
    if |s| < |v| {
      parts := [s];
    } else if s[..|v|] == v {
      var rest := ReplaceAllCuts(s[|v|..], v);
      parts := [""] + rest;
      JoinCons("", rest, v);
      JoinCons("", rest, "***");
      assert s == "" + v + s[|v|..];
      assert forall i :: 0 < i < |parts| ==> parts[i] == rest[i - 1];
    } else {
      var rest := ReplaceAllCuts(s[1..], v);
      parts := [[s[0]] + rest[0]] + rest[1..];
      JoinCons([s[0]], rest, v);
      JoinCons([s[0]], rest, "***");
      assert s == [s[0]] + s[1..];
      LongerFirst(s[0], rest, v);
    }
  }

  /** The secrets are replaced one after another, each in what the ones before it left; an empty one is skipped. */
  lemma ScrubInTurn(vs: seq<string>, v: string, s: string) returns (parts: seq<string>)
    ensures Scrub([], s) == s
    ensures v == "" ==> Scrub(vs + [v], s) == Scrub(vs, s)
    ensures v != "" ==>
      && FirstMatches(parts, v) && Scrub(vs, s) == JoinWith(parts, v)
      && Scrub(vs + [v], s) == JoinWith(parts, "***")
  {
    parts := [];
    assert (vs + [v])[..|vs|] == vs;
    if v != "" {
      parts := ReplaceAllCuts(Scrub(vs, s), v);
    }
  }

  // ---------------------------------------------------------------------------
  // Completeness
  // ---------------------------------------------------------------------------

  lemma ContainsAt(s: string, i: nat, w: string)
    requires OccursAt(s, i, w)
    ensures Contains(s, w)
  {
  }

  lemma OccursChars(s: string, i: nat, w: string)
    requires OccursAt(s, i, w)
    ensures i + |w| <= |s| && forall k :: 0 <= k < |w| ==> w[k] == s[i + k]
  {
    forall k | 0 <= k < |w| ensures w[k] == s[i + k] {
      assert s[i..i + |w|][k] == s[i + k];
    }
  }

  lemma StartsWithMask(x: string)
    requires |x| >= 3 && x[0] == x[1] == x[2] == '*'
    ensures Contains(x, MASK)
  {
    assert x[0..3] == MASK;
    ContainsAt(x, 0, MASK);
  }

  lemma NoMaskTail(x: string)
    requires x != "" && !Contains(x, MASK)
    ensures !Contains(x[1..], MASK)
  {
    if Contains(x[1..], MASK) {
      var i :| 0 <= i <= |x[1..]| && OccursAt(x[1..], i, MASK);
      assert x[1..][i..i + 3] == x[i + 1..i + 4];
      ContainsAt(x, i + 1, MASK);
    }
  }

  /** No such start begins with a mask. */
  lemma MaskedStart(out: string, rest: string, x: string)
    requires out == MASK + rest && x != "" && x[|x| - 1] != '*' && !Contains(x, MASK)
    ensures !OccursAt(out, 0, x)
  {
    if OccursAt(out, 0, x) {
      OccursChars(out, 0, x);
      if |x| >= 3 {
        StartsWithMask(x);
      }
    }
  }

  /** A start of the output that cannot touch a mask is a start of the text. */
  lemma {:induction false} PrefixKept(s: string, v: string, x: string)
    requires v != "" && OccursAt(ReplaceAll(s, v), 0, x)
    requires x != "" ==> x[|x| - 1] != '*' && !Contains(x, MASK)
    ensures OccursAt(s, 0, x)
    ensures x != "" && |v| <= |s| ==> s[..|v|] != v
    decreases |s|
  {
    var out := ReplaceAll(s, v);
    if x != "" && |v| <= |s| {
      assert x[0] == out[0];
      if s[..|v|] == v {
        MaskedStart(out, ReplaceAll(s[|v|..], v), x);
        assert false;
      } else {
        var rest := ReplaceAll(s[1..], v);
        assert out[1..] == rest && x == [s[0]] + x[1..];
        assert rest[..|x[1..]|] == x[1..] by { assert out[..|x|][1..] == out[1..|x|]; }
        NoMaskTail(x);
        PrefixKept(s[1..], v, x[1..]);
        assert s[..|x|] == [s[0]] + s[1..][..|x| - 1];
      }
    }
  }

  lemma ReplaceStep(s: string, v: string)
    requires v != ""
    ensures |s| < |v| ==> ReplaceAll(s, v) == s
    ensures |v| <= |s| && s[..|v|] == v ==> ReplaceAll(s, v) == MASK + ReplaceAll(s[|v|..], v)
    ensures |v| <= |s| && s[..|v|] != v ==> ReplaceAll(s, v) == [s[0]] + ReplaceAll(s[1..], v)
  {
  }

  lemma InertEnds(w: string)
    requires Inert(w)
    ensures w != "" && w[0] != '*' && w[|w| - 1] != '*' && !Contains(w, MASK)
  {
  }

  lemma OccursFits(s: string, i: nat, w: string)
    requires OccursAt(s, i, w)
    ensures i + |w| <= |s|
  {
  }

  lemma NotInMask(rest: string, i: nat, w: string)
    requires OccursAt(MASK + rest, i, w) && w != "" && w[0] != '*'
    ensures i >= 3
  {
    OccursChars(MASK + rest, i, w);
  }

  lemma OccursInTail(pre: string, rest: string, i: nat, w: string)
    requires OccursAt(pre + rest, i, w) && |pre| <= i
    ensures OccursAt(rest, i - |pre|, w)
  {
    assert rest[i - |pre|..i - |pre| + |w|] == (pre + rest)[i..i + |w|];
  }

  lemma LaterContains(s: string, k: nat, w: string)
    requires k <= |s| && Contains(s[k..], w)
    ensures Contains(s, w)
  {
    var i :| 0 <= i <= |s[k..]| && OccursAt(s[k..], i, w);
    assert s[k..][i..i + |w|] == s[k + i..k + i + |w|];
    ContainsAt(s, k + i, w);
  }

  /** Replacing v creates no occurrence of an inert secret, and replacing the secret leaves none. */
  lemma {:induction false} NoneCreated(s: string, v: string, w: string, i: nat)
    requires v != "" && Inert(w) && OccursAt(ReplaceAll(s, v), i, w)
    ensures Contains(s, w) && v != w
    decreases |s|
  {
    hide ReplaceAll, OccursAt, Contains;
    ReplaceStep(s, v);
    InertEnds(w);
    if |s| < |v| {
      ContainsAt(s, i, w);
      OccursFits(s, i, w);
    } else if s[..|v|] == v {
      NotInMask(ReplaceAll(s[|v|..], v), i, w);
      OccursInTail(MASK, ReplaceAll(s[|v|..], v), i, w);
      NoneCreated(s[|v|..], v, w, i - 3);
      LaterContains(s, |v|, w);
    } else if i == 0 {
      PrefixKept(s, v, w);
      ContainsAt(s, 0, w);
    } else {
      OccursInTail([s[0]], ReplaceAll(s[1..], v), i, w);
      NoneCreated(s[1..], v, w, i - 1);
      LaterContains(s, 1, w);
    }
  }

  lemma InertNonempty(w: string)
    requires Inert(w)
    ensures w != ""
  {
  }

  /** Whatever the order and the other secrets, an inert secret does not survive. */
  lemma {:induction false} InertIsScrubbed(vs: seq<string>, s: string, w: string)
    requires Inert(w) && w in vs
    ensures !Contains(Scrub(vs, s), w)
  {
    hide Inert, ReplaceAll;
    var n := |vs| - 1;
    var t := Scrub(vs[..n], s);
    assert w != "" by { InertNonempty(w); }
    if Contains(Scrub(vs, s), w) {
      var i :| 0 <= i <= |Scrub(vs, s)| && OccursAt(Scrub(vs, s), i, w);
      if vs[n] != "" {
        NoneCreated(t, vs[n], w, i);
      }
      assert w in vs[..n] by { assert vs == vs[..n] + [vs[n]]; }
      InertIsScrubbed(vs[..n], s, w);
    }
  }

  // ---------------------------------------------------------------------------
  // The condition is exact
  // ---------------------------------------------------------------------------

  lemma {:induction false} NoMatchSame(s: string, v: string)
    requires v != "" && !Contains(s, v)
    ensures ReplaceAll(s, v) == s
    decreases |s|
  {
    if |v| <= |s| {
      if s[..|v|] == v {
        ContainsAt(s, 0, v);
      }
      if Contains(s[1..], v) {
        LaterContains(s, 1, v);
      }
      NoMatchSame(s[1..], v);
    }
  }

  lemma NoMatchHere(s: string, v: string)
    requires !OccursAt(s, 0, v) && v != "" && |v| <= |s|
    ensures ReplaceAll(s, v) == [s[0]] + ReplaceAll(s[1..], v)
  {
  }

  lemma OccursLater(s: string, i: nat, v: string)
    requires s != "" && !OccursAt(s, i + 1, v)
    ensures !OccursAt(s[1..], i, v)
  {
    assert i + |v| <= |s[1..]| ==> s[1..][i..i + |v|] == s[i + 1..i + 1 + |v|];
  }

  lemma {:induction false} NoMatchUpTo(s: string, k: nat, v: string)
    requires v != "" && k + |v| <= |s|
    requires forall i :: 0 <= i < k ==> !OccursAt(s, i, v)
    ensures ReplaceAll(s, v) == s[..k] + ReplaceAll(s[k..], v)
    decreases k
  {
    hide OccursAt, ReplaceAll;
    if k == 0 {
      assert s[0..] == s && s[..0] == "";
    } else {
      NoMatchHere(s, v);
      forall i | 0 <= i < k - 1 ensures !OccursAt(s[1..], i, v) {
        OccursLater(s, i, v);
      }
      NoMatchUpTo(s[1..], k - 1, v);
      assert s[1..][k - 1..] == s[k..];
      assert s[..k] == [s[0]] + s[1..][..k - 1];
    }
  }

  lemma NoMatchBefore(x: string, t: string, v: string)
    requires v != "" && |v| <= |t|
    requires forall i :: 0 <= i < |x| ==> !OccursAt(x + t, i, v)
    ensures ReplaceAll(x + t, v) == x + ReplaceAll(t, v)
  {
    hide OccursAt, ReplaceAll;
    NoMatchUpTo(x + t, |x|, v);
    assert (x + t)[..|x|] == x && (x + t)[|x|..] == t;
  }

  lemma MatchFirst(v: string, y: string)
    requires v != "" && |y| < |v|
    ensures ReplaceAll(v + y, v) == MASK + y
  {
    assert (v + y)[..|v|] == v && (v + y)[|v|..] == y;
  }

  lemma ScrubOne(w: string, s: string)
    requires w != ""
    ensures Scrub([w], s) == ReplaceAll(s, w)
  {
    assert [w][..0] == [];
  }

  lemma ScrubTwo(w: string, v: string, s: string)
    requires w != "" && v != ""
    ensures Scrub([w, v], s) == ReplaceAll(ReplaceAll(s, w), v)
  {
    assert [w, v][..1] == [w];
    ScrubOne(w, s);
  }

  /** A secret beginning with '*' survives a mask followed by its rest. */
  lemma LeadingStarSurvives(w: string)
    requires w != "" && w[0] == '*'
    ensures Contains(Scrub([w], w + w[1..]), w)
  {
    ScrubOne(w, w + w[1..]);
    MatchFirst(w, w[1..]);
    var out := MASK + w[1..];
    assert out[2..2 + |w|] == w;
    ContainsAt(out, 2, w);
  }

  /** The text before the copy of the secret does not start a match, for it would start with '*'. */
  lemma NoEarlyMatch(w: string, i: nat)
    requires w != "" && w[0] != '*' && w[|w| - 1] == '*' && i < |w| - 1
    ensures !OccursAt(w[..|w| - 1] + w, i, w)
  {
    var s, n := w[..|w| - 1] + w, |w| - 1;
    assert s[i] == w[i] && s[n + i] == w[i];
    if OccursAt(s, i, w) {
      OccursChars(s, i, w);
    }
  }

  lemma TrailingMasked(w: string)
    requires w != "" && w[0] != '*' && w[|w| - 1] == '*'
    ensures ReplaceAll(w[..|w| - 1] + w, w) == w[..|w| - 1] + MASK
  {
    hide ReplaceAll, OccursAt;
    var x := w[..|w| - 1];
    forall i | 0 <= i < |x| ensures !OccursAt(x + w, i, w) {
      NoEarlyMatch(w, i);
    }
    NoMatchBefore(x, w, w);
    assert w + "" == w && MASK + "" == MASK;
    MatchFirst(w, "");
  }

  /** A secret ending in '*' survives its beginning followed by a mask. */
  lemma TrailingStarSurvives(w: string)
    requires w != "" && w[0] != '*' && w[|w| - 1] == '*'
    ensures Contains(Scrub([w], w[..|w| - 1] + w), w)
  {
    hide ReplaceAll, Scrub;
    TrailingMasked(w);
    ScrubOne(w, w[..|w| - 1] + w);
    var out := w[..|w| - 1] + MASK;
    assert out[0..|w|] == w;
    ContainsAt(out, 0, w);
  }

  function Stars(n: nat): (s: string)
    ensures |s| == n && forall i :: 0 <= i < n ==> s[i] == '*'
  {
    if n == 0 then "" else "*" + Stars(n - 1)
  }

  lemma MaskShift(w: string)
    requires w != "" && w[0] == '*' && OccursAt(w[1..], 0, MASK)
    ensures OccursAt(w, 0, MASK)
  {
    OccursChars(w[1..], 0, MASK);
    assert w[1] == w[1..][0] && w[2] == w[1..][1];
  }

  lemma {:induction false} FirstMask(w: string) returns (k: nat)
    requires Contains(w, MASK)
    ensures OccursAt(w, k, MASK) && (k > 0 ==> w[k - 1] != '*')
    decreases |w|
  {
    if OccursAt(w, 0, MASK) {
      k := 0;
    } else {
      var i :| 0 <= i <= |w| && OccursAt(w, i, MASK);
      assert w[1..][i - 1..i + 2] == w[i..i + 3];
      ContainsAt(w[1..], i - 1, MASK);
      k := FirstMask(w[1..]);
      assert w[k + 1..k + 4] == w[1..][k..k + 3];
      if k == 0 && w[0] == '*' {
        MaskShift(w);
        assert false;
      }
      k := k + 1;
    }
  }

  /** The text x, many stars, y does not contain the secret x***y, since the secret is too short for the stars. */
  lemma NotAmongStars(x: string, y: string, w: string, m: nat)
    requires w == x + MASK + y && w[0] != '*' && w[|w| - 1] != '*' && m > |w|
    ensures !Contains(x + (Stars(m) + y), w)
  {
    var s := x + (Stars(m) + y);
    assert forall i :: |x| <= i < |x| + m ==> s[i] == '*';
    forall p | 0 <= p <= |s| ensures !OccursAt(s, p, w) {
      if OccursAt(s, p, w) {
        OccursChars(s, p, w);
      }
    }
  }

  lemma StarsStartLater(x: string, t: string, m: nat, i: nat)
    requires i < |x| < m && x[|x| - 1] != '*'
    ensures !OccursAt(x + t, i, Stars(m))
  {
    var s := x + t;
    assert s[|x| - 1] == x[|x| - 1];
    assert Stars(m)[|x| - 1 - i] == '*';
    if OccursAt(s, i, Stars(m)) {
      OccursChars(s, i, Stars(m));
    }
  }

  lemma StarsAreMasked(x: string, y: string, m: nat)
    requires |x| < m && |y| < m && (x != "" ==> x[|x| - 1] != '*')
    ensures ReplaceAll(x + (Stars(m) + y), Stars(m)) == x + (MASK + y)
  {
    var v := Stars(m);
    forall i | 0 <= i < |x| ensures !OccursAt(x + (v + y), i, v) {
      StarsStartLater(x, v + y, m, i);
    }
    NoMatchBefore(x, v + y, v);
    MatchFirst(v, y);
  }

  /** A secret with "***" inside is put together by masking a run of stars after it was looked for. */
  lemma InnerMaskSurvives(w: string)
    requires w != "" && w[0] != '*' && w[|w| - 1] != '*' && Contains(w, MASK)
    ensures exists v, s :: v != "" && Contains(Scrub([w, v], s), w)
  {
    hide ReplaceAll, Scrub, Contains;
    var k := FirstMask(w);
    var x, y, m := w[..k], w[k + 3..], |w| + 1;
    assert w == x + MASK + y;
    var v := Stars(m);
    var s := x + (v + y);
    NotAmongStars(x, y, w, m);
    NoMatchSame(s, w);
    StarsAreMasked(x, y, m);
    ScrubTwo(w, v, s);
    assert x + (MASK + y) == w;
    assert w[0..|w|] == w;
    ContainsAt(w, 0, w);
  }

  lemma NotAlways(w: string, vs: seq<string>, s: string)
    requires w in vs && Contains(Scrub(vs, s), w)
    ensures !forall vs, s :: w in vs ==> !Contains(Scrub(vs, s), w)
  {
  }

  /** A secret is scrubbed from every text, in every order and beside any other secrets, exactly when it is inert. */
  lemma ScrubbedIff(w: string)
    requires w != ""
    ensures Inert(w) <==> forall vs, s :: w in vs ==> !Contains(Scrub(vs, s), w)
  {
    hide Scrub, ReplaceAll;
    if Inert(w) {
      forall vs, s | w in vs ensures !Contains(Scrub(vs, s), w) {
        InertIsScrubbed(vs, s, w);
      }
    } else if w[0] == '*' {
      LeadingStarSurvives(w);
      NotAlways(w, [w], w + w[1..]);
    } else if w[|w| - 1] == '*' {
      TrailingStarSurvives(w);
      NotAlways(w, [w], w[..|w| - 1] + w);
    } else {
      InnerMaskSurvives(w);
      var v, s :| v != "" && Contains(Scrub([w, v], s), w);
      NotAlways(w, [w, v], s);
    }
  }

  lemma MaskHasStar(w: string, i: nat)
    requires OccursAt(w, i, MASK)
    ensures '*' in w
  {
    OccursChars(w, i, MASK);
    assert w[i] == MASK[0];
  }

  lemma StarFreeIsInert(w: string)
    requires w != "" && '*' !in w
    ensures Inert(w)
  {
    if Contains(w, MASK) {
      var i :| 0 <= i <= |w| && OccursAt(w, i, MASK);
      MaskHasStar(w, i);
    }
  }

  // ---------------------------------------------------------------------------
  // The loop
  // ---------------------------------------------------------------------------

  /** vs lists the values of the map, each name once. */
  ghost predicate IsOrder(vs: seq<string>, names: seq<string>, secrets: map<string, string>) {
    && |vs| == |names|
    && (forall i :: 0 <= i < |names| ==> names[i] in secrets && vs[i] == secrets[names[i]])
    && (forall i, j :: 0 <= i < j < |names| ==> names[i] != names[j])
    && (forall n :: n in secrets ==> n in names)
  }

  lemma OrderSnoc(vs: seq<string>, names: seq<string>, secrets: map<string, string>, n: string)
    requires n in secrets && IsOrder(vs, names, secrets - {n})
    ensures IsOrder(vs + [secrets[n]], names + [n], secrets)
  {
    var more := names + [n];
    forall k | k in secrets ensures k in more {
      if k == n {
        assert more[|names|] == k;
      } else {
        assert k in names;
      }
    }
    assert forall i :: 0 <= i < |names| ==> names[i] in secrets - {n};
  }

  method Scrubbed(buf: string, secrets: map<string, string>)
    returns (out: string, ghost vs: seq<string>, ghost names: seq<string>)
    ensures IsOrder(vs, names, secrets) && out == Scrub(vs, buf)
    ensures forall n :: n in secrets && Inert(secrets[n]) ==> !Contains(out, secrets[n])
    ensures (forall n :: n in secrets && secrets[n] != "" ==> !Contains(buf, secrets[n])) ==> out == buf
  {
    hide ReplaceAll, Inert, Contains;
    vs, names := [], [];
    out := buf;
    var todo := secrets.Keys;
    while todo != {}
      invariant todo <= secrets.Keys
      invariant IsOrder(vs, names, secrets - todo) && out == Scrub(vs, buf)
      invariant (forall n :: n in secrets && secrets[n] != "" ==> !Contains(buf, secrets[n])) ==> out == buf
      decreases |todo|
    {
      var n :| n in todo;
      var v := secrets[n];
      assert (secrets - (todo - {n})) - {n} == secrets - todo;
      OrderSnoc(vs, names, secrets - (todo - {n}), n);
      assert (vs + [v])[..|vs|] == vs;
      if v != "" {
        if !Contains(out, v) {
          NoMatchSame(out, v);
        }
        out := ReplaceAll(out, v);
      }
      vs, names := vs + [v], names + [n];
      todo := todo - {n};
    }
    assert secrets - {} == secrets;
    forall n | n in secrets && Inert(secrets[n]) ensures !Contains(out, secrets[n]) {
      var i :| 0 <= i < |names| && names[i] == n;
      assert vs[i] in vs;
      InertIsScrubbed(vs, buf, secrets[n]);
    }
  }
}
