/** What EvalIf returns, in terms of the grammar. */
module IfMeaning {
  import opened Wrappers
  import opened IfSyntax
  import opened IfParser
  import opened IfTheorems

  function Joined(ws: seq<string>): string { if ws == [] then "" else ws[0] + Joined(ws[1..]) }

  ghost predicate AllSpaces(ws: seq<string>) { forall i :: 0 <= i < |ws| ==> IsSpace(ws[i]) }

  /** White space, character by character. */
  ghost predicate Spaces(s: string) { exists ws :: AllSpaces(ws) && s == Joined(ws) }

  /** A text that TrimSpace leaves alone. */
  predicate Solid(s: string) { s != "" && IsInk(s[0]) && IsInk(s[|s| - 1]) }

  /** No white-space character is the beginning of another. */
  lemma LeadSpaceExact(w: string, x: string)
    requires IsSpace(w)
    ensures LeadSpace(w + x) == |w|
  {
    assert (w + x)[..|w|] == w && (w + x)[..1] == w[..1];
    assert |w| >= 2 ==> (w + x)[..2] == w[..2];
  }

  /** Nor the end of another. */
  lemma LastSpaceExact(x: string, w: string)
    requires IsSpace(w)
    ensures LastSpace(x + w) == |w| > 0
  {
    var n := |x + w|;
    assert (x + w)[n - |w|..] == w && (x + w)[n - 1..] == w[|w| - 1..];
    assert |w| >= 2 ==> (x + w)[n - 2..] == w[|w| - 2..];
  }

  lemma SolidHasNoSpace(x: string, y: string)
    requires Solid(x)
    ensures LeadSpace(x + y) == 0 && LastSpace(x) == 0
  {
    assert (x + y)[..1][0] == x[0];
  }

  lemma {:induction false} TrimLeftExact(ws: seq<string>, x: string)
    requires AllSpaces(ws) && LeadSpace(x) == 0
    ensures TrimLeft(Joined(ws) + x) == x
  {
    hide IsSpace, LeadSpace;
    if ws == [] {
      assert "" + x == x;
    } else {
      var rest := Joined(ws[1..]) + x;
      assert Joined(ws) + x == ws[0] + rest;
      LeadSpaceExact(ws[0], rest);
      assert (ws[0] + rest)[|ws[0]|..] == rest;
      TrimLeftExact(ws[1..], x);
    }
  }

  lemma {:induction false} JoinedAppend(ws: seq<string>, vs: seq<string>)
    ensures Joined(ws + vs) == Joined(ws) + Joined(vs)
  {
    if ws == [] {
      assert ws + vs == vs;
    } else {
      assert (ws + vs)[1..] == ws[1..] + vs;
      JoinedAppend(ws[1..], vs);
    }
  }

  lemma {:induction false} JoinedLast(ws: seq<string>)
    requires ws != []
    ensures Joined(ws) == Joined(ws[..|ws| - 1]) + ws[|ws| - 1]
  {
    var n := |ws| - 1;
    if n > 0 {
      JoinedLast(ws[1..]);
      assert ws[..n][1..] == ws[1..][..n - 1];
    }
  }

  lemma {:induction false} TrimRightExact(x: string, ws: seq<string>)
    requires AllSpaces(ws) && Solid(x)
    ensures TrimRight(x + Joined(ws)) == x
  {
    hide IsSpace, LastSpace, Solid;
    if ws == [] {
      assert x + "" == x;
      SolidHasNoSpace(x, "");
    } else {
      var n := |ws| - 1;
      var rest, w := x + Joined(ws[..n]), ws[n];
      JoinedLast(ws);
      assert x + Joined(ws) == rest + w;
      LastSpaceExact(rest, w);
      assert (rest + w)[..|rest + w| - |w|] == rest;
      TrimRightExact(x, ws[..n]);
    }
  }

  lemma TrimExact(pre: string, x: string, post: string)
    requires Spaces(pre) && Spaces(post) && Solid(x)
    ensures Trim(pre + (x + post)) == x
  {
    hide TrimLeft, TrimRight, Solid;
    var ws :| AllSpaces(ws) && pre == Joined(ws);
    var vs :| AllSpaces(vs) && post == Joined(vs);
    SolidHasNoSpace(x, post);
    TrimLeftExact(ws, x + post);
    TrimRightExact(x, vs);
  }

  /** Blanks are white space. */
  lemma {:induction false} BlanksAreSpaces(s: string) returns (ws: seq<string>)
    requires Blanks(s)
    ensures AllSpaces(ws) && s == Joined(ws)
  {
    ws := [];
    if s != "" {
      var rest := BlanksAreSpaces(s[1..]);
      assert IsSpace([s[0]]);
      ws := [[s[0]]] + rest;
      assert ws[1..] == rest && s == [s[0]] + s[1..];
    }
  }

  lemma SpacesThenBlanks(pre: string, lead: string)
    requires Spaces(pre) && Blanks(lead)
    ensures Spaces(pre + lead)
  {
    var ws :| AllSpaces(ws) && pre == Joined(ws);
    var vs := BlanksAreSpaces(lead);
    JoinedAppend(ws, vs);
    assert AllSpaces(ws + vs);
  }

  lemma NoSpaces()
    ensures Spaces("")
  {
    assert AllSpaces([]) && Joined([]) == "";
  }

  lemma BlankIsLast(s: string)
    ensures s != "" && IsBlank(s[|s| - 1]) ==> LastSpace(s) > 0
  {
    if s != "" {
      assert s[|s| - 1..] == [s[|s| - 1]];
    }
  }

  lemma {:induction false} TrimRightSolid(s: string)
    ensures var x := TrimRight(s); x == "" || !IsBlank(x[|x| - 1])
  {
    hide LastSpace, IsSpace;
    if LastSpace(s) > 0 {
      TrimRightSolid(s[..|s| - LastSpace(s)]);
    } else {
      BlankIsLast(s);
    }
  }

  // ---------------------------------------------------------------------------
  // Leading blanks
  // ---------------------------------------------------------------------------

  function LeadOfAnd(t: AndT): string {
    match t
    case OneCmp(c) => c.lead
    case AndMore(l, _, _) => LeadOfAnd(l)
  }

  function LeadOf(t: OrT): string {
    match t
    case OneAnd(a) => LeadOfAnd(a)
    case OrMore(l, _, _) => LeadOf(l)
  }

  function StripAnd(t: AndT): AndT {
    match t
    case OneCmp(c) => OneCmp(c.(lead := ""))
    case AndMore(l, gap, r) => AndMore(StripAnd(l), gap, r)
  }

  /** The tree without its leading blanks. */
  function Strip(t: OrT): OrT {
    match t
    case OneAnd(a) => OneAnd(StripAnd(a))
    case OrMore(l, gap, r) => OrMore(Strip(l), gap, r)
  }

  lemma EmptyLead(x: string)
    ensures "" + x == x
  {
  }

  lemma SolidEnd(l: string, m: string, r: string)
    requires l != "" && IsInk(l[0]) && r != "" && IsInk(r[|r| - 1])
    ensures Solid(l + (m + r))
  {
  }

  lemma StripCmp(c: CmpT)
    requires CmpOk(c)
    ensures var d := c.(lead := "");
      && CmpOk(d) && AbsCmp(d) == AbsCmp(c) && CmpText(c) == c.lead + CmpText(d) && Blanks(c.lead) && Solid(CmpText(d))
  {
    hide OrText, OrOk, AbsOr, TokenText, TokenOk;
    match c
    case Paren(lead, inner, gap) =>
      EmptyLead("(" + (OrText(inner) + (gap + ")")));
      assert OrText(inner) + (gap + ")") == (OrText(inner) + gap) + ")";
      SolidEnd("(", OrText(inner) + gap, ")");
    case Bare(lead, v) =>
      TokenStart(v);
      EmptyLead(TokenText(v));
    case Cmp(lead, x, gap, equal, gap2, y) =>
      TokenStart(x);
      TokenStart(y);
      EmptyLead(TokenText(x) + (gap + (OpText(equal) + (gap2 + TokenText(y)))));
      assert gap + (OpText(equal) + (gap2 + TokenText(y))) == (gap + OpText(equal) + gap2) + TokenText(y);
      SolidEnd(TokenText(x), gap + OpText(equal) + gap2, TokenText(y));
  }

  lemma CmpLast(c: CmpT)
    requires CmpOk(c)
    ensures var x := CmpText(c); x != "" && IsInk(x[|x| - 1])
  {
    StripCmp(c);
  }

  lemma {:induction false} AndLast(t: AndT)
    requires AndOk(t)
    ensures var x := AndText(t); x != "" && IsInk(x[|x| - 1])
  {
    match t
    case OneCmp(c) => CmpLast(c);
    case AndMore(l, gap, r) => CmpLast(r);
  }

  lemma {:induction false} StripsAnd(t: AndT)
    requires AndOk(t)
    ensures AndOk(StripAnd(t)) && AbsAnd(StripAnd(t)) == AbsAnd(t)
    ensures AndText(t) == LeadOfAnd(t) + AndText(StripAnd(t)) && Blanks(LeadOfAnd(t)) && Solid(AndText(StripAnd(t)))
  {
    hide CmpText, CmpOk, AbsCmp;
    match t
    case OneCmp(c) => StripCmp(c);
    case AndMore(l, gap, r) =>
      StripsAnd(l);
      CmpLast(r);
      assert AndText(t) == LeadOfAnd(l) + (AndText(StripAnd(l)) + (gap + ("&&" + CmpText(r))));
      assert gap + ("&&" + CmpText(r)) == (gap + "&&") + CmpText(r);
      SolidEnd(AndText(StripAnd(l)), gap + "&&", CmpText(r));
  }

  lemma {:induction false} Strips(t: OrT)
    requires OrOk(t)
    ensures OrOk(Strip(t)) && AbsOr(Strip(t)) == AbsOr(t)
    ensures OrText(t) == LeadOf(t) + OrText(Strip(t)) && Blanks(LeadOf(t)) && Solid(OrText(Strip(t)))
  {
    hide AndText, AndOk, AbsAnd;
    match t
    case OneAnd(a) => StripsAnd(a);
    case OrMore(l, gap, r) =>
      Strips(l);
      AndLast(r);
      assert OrText(t) == LeadOf(l) + (OrText(Strip(l)) + (gap + ("||" + AndText(r))));
      assert gap + ("||" + AndText(r)) == (gap + "||") + AndText(r);
      SolidEnd(OrText(Strip(l)), gap + "||", AndText(r));
  }

  // ---------------------------------------------------------------------------
  // Both directions
  // ---------------------------------------------------------------------------

  lemma WholeText(t: OrT)
    requires OrOk(t)
    ensures var s := OrText(t);
      && s != "" && ReadOr(s, 0).Good? && ReadOr(s, 0).tree == t && Skip(s, ReadOr(s, 0).next) == |s|
  {
    hide ReadOr, OrText, OrOk;
    var s := OrText(t);
    assert At(s, 0, s) && Ends(s, |s|) by { assert s[0..|s|] == s; }
    OrComplete(s, 0, t);
    SkipThrough(s, ReadOr(s, 0).end, ReadOr(s, 0).next);
    Strips(t);
  }

  /** Every text of the grammar, with any white space around it and blanks inside it, evaluates to its meaning. */
  lemma TextsEvaluate(pre: string, t: OrT, post: string, c: Context)
    requires OrOk(t) && Spaces(pre) && Spaces(post)
    ensures Meaning(pre + OrText(t) + post, c) == Ok(Eval(c, AbsOr(t)))
  {
    hide ReadOr, OrText, OrOk, AbsOr, Trim, Skip, Eval, Solid;
    Strips(t);
    var lead, core := LeadOf(t), OrText(Strip(t));
    assert pre + OrText(t) + post == (pre + lead) + (core + post);
    SpacesThenBlanks(pre, lead);
    TrimExact(pre + lead, core, post);
    WholeText(Strip(t));
  }

  /** Every expression, written with the parentheses it needs, evaluates to its meaning. */
  lemma RenderedEvaluates(e: Expr, c: Context)
    requires ExprOk(e)
    ensures Meaning(OrText(RenderOr(e)), c) == Ok(Eval(c, e))
  {
    hide Meaning, Eval, OrText, OrOk, RenderOr;
    RenderStandsFor(e);
    assert "" + OrText(RenderOr(e)) + "" == OrText(RenderOr(e));
    NoSpaces();
    TextsEvaluate("", RenderOr(e), "", c);
  }

  /** Whatever EvalIf accepts is the text of a tree, in full, and the value is that tree's meaning. */
  lemma AcceptedIsText(expr: string, c: Context) returns (t: OrT)
    requires Meaning(expr, c).Ok? && Trim(expr) != ""
    ensures OrOk(t) && Trim(expr) == OrText(t) && Meaning(expr, c) == Ok(Eval(c, AbsOr(t)))
  {
    hide OrText, OrOk, AbsOr, Eval;
    var s := Trim(expr);
    TrimRightSolid(TrimLeft(expr));
    var p := ReadOr(s, 0);
    t := p.tree;
    BlanksJoin(s, p.end, p.next, |s|);
    assert s[0..|s|] == s;
  }

  /** EvalIf succeeds exactly on blank texts and texts of the grammar, whatever the trigger. */
  lemma AcceptedIff(expr: string, c: Context)
    ensures Meaning(expr, c).Ok? <==> Trim(expr) == "" || exists t :: OrOk(t) && OrText(t) == Trim(expr)
  {
    hide OrText, OrOk, AbsOr, Eval, Trim;
    if Trim(expr) != "" {
      if Meaning(expr, c).Ok? {
        var t := AcceptedIsText(expr, c);
      }
      if t :| OrOk(t) && OrText(t) == Trim(expr) {
        WholeText(t);
      }
    }
  }

  /** A text has one meaning: trees with the same text stand for the same expression. */
  lemma Unambiguous(t: OrT, u: OrT)
    requires OrOk(t) && OrOk(u) && OrText(t) == OrText(u)
    ensures t == u
  {
    hide OrText, OrOk, ReadOr;
    WholeText(t);
    WholeText(u);
  }

  // ---------------------------------------------------------------------------
  // The language, text by text
  // ---------------------------------------------------------------------------

  lemma TreeEvaluates(t: OrT, c: Context)
    requires OrOk(t)
    ensures Meaning(OrText(t), c) == Ok(Eval(c, AbsOr(t)))
  {
    hide Meaning, OrText, OrOk, Eval;
    NoSpaces();
    assert "" + OrText(t) + "" == OrText(t);
    TextsEvaluate("", t, "", c);
  }

  lemma OneEvaluates(t: CmpT, c: Context)
    requires CmpOk(t)
    ensures Meaning(CmpText(t), c) == Ok(Eval(c, AbsCmp(t)))
  {
    hide Meaning, CmpText, CmpOk, AbsCmp;
    TreeEvaluates(OneAnd(OneCmp(t)), c);
  }

  lemma ComparisonEvaluates(x: Token, gap: string, equal: bool, gap2: string, y: Token, c: Context)
    requires TokenOk(x) && TokenOk(y) && Blanks(gap) && Blanks(gap2)
    ensures Meaning(TokenText(x) + (gap + (OpText(equal) + (gap2 + TokenText(y)))), c)
         == Ok((Value(c, x) == Value(c, y)) == equal)
  {
    hide Meaning, TokenText, OpText, TokenOk, Value, Spaces;
    var t := Cmp("", x, gap, equal, gap2, y);
    EmptyLead(TokenText(x) + (gap + (OpText(equal) + (gap2 + TokenText(y)))));
    assert CmpOk(t);
    OneEvaluates(t, c);
  }

  lemma BareEvaluates(v: Token, c: Context)
    requires TokenOk(v)
    ensures Meaning(TokenText(v), c) == Ok(Value(c, v) != "")
  {
    hide Meaning, TokenText, TokenOk, Value, Spaces;
    var t := Bare("", v);
    EmptyLead(TokenText(v));
    assert CmpText(t) == TokenText(v) && CmpOk(t);
    OneEvaluates(t, c);
  }

  lemma FieldEvaluates(f: Field, v: string, c: Context)
    requires '"' !in v
    ensures Meaning(FieldName(f) + (" == \"" + v + "\""), c) == Ok(Lookup(c, f) == v)
    ensures Meaning(FieldName(f) + (" != \"" + v + "\""), c) == Ok(Lookup(c, f) != v)
    ensures Meaning(FieldName(f), c) == Ok(Lookup(c, f) != "")
  {
    hide Meaning, FieldName, Lookup;
    var x, y := Ref(f), Lit('"', v);
    assert " == \"" + v + "\"" == " " + (OpText(true) + (" " + TokenText(y)));
    assert " != \"" + v + "\"" == " " + (OpText(false) + (" " + TokenText(y)));
    ComparisonEvaluates(x, " ", true, " ", y, c);
    ComparisonEvaluates(x, " ", false, " ", y, c);
    BareEvaluates(x, c);
  }

  /** White space alone is no condition. */
  lemma BlankMeans(s: string, c: Context)
    requires Spaces(s)
    ensures Meaning(s, c) == Ok(true)
  {
    hide IsSpace;
    var ws :| AllSpaces(ws) && s == Joined(ws);
    assert s + "" == s && LeadSpace("") == 0 && LastSpace("") == 0;
    TrimLeftExact(ws, "");
  }

  /** Each field reference reads its own field of the trigger: compared, compared the other way, and alone. */
  lemma FieldsMean(v: string, c: Context)
    requires '"' !in v
    ensures Meaning("event.type" + (" == \"" + v + "\""), c) == Ok(c.eventType == v)
    ensures Meaning("event.branch" + (" == \"" + v + "\""), c) == Ok(c.branch == v)
    ensures Meaning("event.base_branch" + (" == \"" + v + "\""), c) == Ok(c.baseBranch == v)
    ensures Meaning("event.proposal_id" + (" == \"" + v + "\""), c) == Ok(c.proposalID == v)
    ensures Meaning("event.type" + (" != \"" + v + "\""), c) == Ok(c.eventType != v)
    ensures Meaning("event.branch" + (" != \"" + v + "\""), c) == Ok(c.branch != v)
    ensures Meaning("event.base_branch" + (" != \"" + v + "\""), c) == Ok(c.baseBranch != v)
    ensures Meaning("event.proposal_id" + (" != \"" + v + "\""), c) == Ok(c.proposalID != v)
    ensures Meaning("event.type", c) == Ok(c.eventType != "")
    ensures Meaning("event.branch", c) == Ok(c.branch != "")
    ensures Meaning("event.base_branch", c) == Ok(c.baseBranch != "")
    ensures Meaning("event.proposal_id", c) == Ok(c.proposalID != "")
  {
    hide Meaning;
    FieldEvaluates(EventType, v, c);
    FieldEvaluates(EventBranch, v, c);
    FieldEvaluates(EventBaseBranch, v, c);
    FieldEvaluates(EventProposalID, v, c);
  }

  /** A literal, in either quotes, is its text, and spaces and tabs around an operator do not count. */
  lemma LiteralsMean(q: char, v: string, gap: string, gap2: string, w: string, c: Context)
    requires (q == '"' || q == '\'') && q !in v && q !in w
    requires (forall x :: x in gap ==> x == ' ' || x == '\t') && (forall x :: x in gap2 ==> x == ' ' || x == '\t')
    ensures Meaning([q] + v + [q] + (gap + ("==" + (gap2 + ([q] + w + [q])))), c) == Ok(v == w)
    ensures Meaning([q] + v + [q] + (gap + ("!=" + (gap2 + ([q] + w + [q])))), c) == Ok(v != w)
    ensures Meaning([q] + v + [q], c) == Ok(v != "")
  {
    hide Meaning;
    var x, y := Lit(q, v), Lit(q, w);
    assert forall i :: 0 <= i < |gap| ==> gap[i] in gap;
    assert forall i :: 0 <= i < |gap2| ==> gap2[i] in gap2;
    ComparisonEvaluates(x, gap, true, gap2, y, c);
    ComparisonEvaluates(x, gap, false, gap2, y, c);
    BareEvaluates(x, c);
  }

  /** Texts joined by || have the disjunction of their values. */
  lemma OrMeans(t: OrT, gap: string, u: AndT, c: Context)
    requires OrOk(t) && Blanks(gap) && AndOk(u)
    ensures var x, y := Meaning(OrText(t), c), Meaning(AndText(u), c);
      && x.Ok? && y.Ok?
      && Meaning(OrText(t) + (gap + ("||" + AndText(u))), c) == Ok(x.value || y.value)
  {
    hide Meaning, AndText, AndOk, AbsAnd;
    TreeEvaluates(t, c);
    TreeEvaluates(OneAnd(u), c);
    TreeEvaluates(OrMore(t, gap, u), c);
  }

  /** Comparisons joined by && have the conjunction of their values. */
  lemma AndMeans(t: AndT, gap: string, u: CmpT, c: Context)
    requires AndOk(t) && Blanks(gap) && CmpOk(u)
    ensures var x, y := Meaning(AndText(t), c), Meaning(CmpText(u), c);
      && x.Ok? && y.Ok?
      && Meaning(AndText(t) + (gap + ("&&" + CmpText(u))), c) == Ok(x.value && y.value)
  {
    hide Meaning, CmpText, CmpOk, AbsCmp;
    TreeEvaluates(OneAnd(t), c);
    TreeEvaluates(OneAnd(OneCmp(u)), c);
    TreeEvaluates(OneAnd(AndMore(t, gap, u)), c);
  }

  /** Parentheses keep the value. */
  lemma ParensMean(lead: string, t: OrT, gap: string, c: Context)
    requires Blanks(lead) && OrOk(t) && Blanks(gap)
    ensures Meaning(lead + ("(" + (OrText(t) + (gap + ")"))), c) == Meaning(OrText(t), c)
  {
    hide Meaning;
    TreeEvaluates(t, c);
    assert CmpOk(Paren(lead, t, gap));
    OneEvaluates(Paren(lead, t, gap), c);
  }
}
