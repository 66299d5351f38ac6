/** Texts and trees correspond both ways: EvalIf accepts exactly the texts of the grammar, with their meaning. */
module IfTheorems {
  import opened Wrappers
  import opened IfSyntax
  import opened IfParser

  // ---------------------------------------------------------------------------
  // Scanning
  // ---------------------------------------------------------------------------

  lemma {:induction false} SkipExact(s: string, i: nat, b: string)
    requires At(s, i, b) && Blanks(b) && (i + |b| < |s| ==> !IsBlank(s[i + |b|]))
    ensures Skip(s, i) == i + |b|
    decreases |b|
  {
    if b != "" {
      assert s[i] == b[0];
      assert s[i + 1..i + 1 + |b[1..]|] == b[1..];
      SkipExact(s, i + 1, b[1..]);
    }
  }

  lemma {:induction false} SkipThrough(s: string, i: nat, j: nat)
    requires i <= j <= |s| && Blanks(s[i..j])
    ensures Skip(s, i) == Skip(s, j)
    decreases j - i
  {
    if i < j {
      assert s[i..j][0] == s[i];
      assert s[i + 1..j] == s[i..j][1..];
      SkipThrough(s, i + 1, j);
    }
  }

  lemma {:induction false} FindQuoteExact(s: string, i: nat, x: string, q: char)
    requires At(s, i, x) && q !in x && i + |x| < |s| && s[i + |x|] == q
    ensures FindQuote(s, i, q) == i + |x|
    decreases |x|
  {
    if x != "" {
      assert s[i] == x[0];
      assert s[i + 1..i + 1 + |x[1..]|] == x[1..];
      FindQuoteExact(s, i + 1, x[1..], q);
    }
  }

  lemma {:induction false} IdentEndExact(s: string, i: nat, x: string)
    requires At(s, i, x) && (forall j :: 0 <= j < |x| ==> IsIdentChar(x[j]))
    requires i + |x| < |s| ==> !IsIdentChar(s[i + |x|])
    ensures IdentEnd(s, i) == i + |x|
    decreases |x|
  {
    if x != "" {
      assert s[i] == x[0];
      assert s[i + 1..i + 1 + |x[1..]|] == x[1..];
      IdentEndExact(s, i + 1, x[1..]);
    }
  }

  lemma FieldNames(f: Field)
    ensures var x := FieldName(f);
      && FieldOf(x) == Some(f) && x != "" && x[0] == 'e' && (forall j :: 0 <= j < |x| ==> IsIdentChar(x[j]))
  {
  }

  lemma LitParts(s: string, i: nat, q: char, text: string)
    requires At(s, i, [q] + text + [q])
    ensures var k := i + 1 + |text|; k < |s| && s[i] == q && s[k] == q && s[i + 1..k] == text && At(s, i + 1, text)
  {
    var k := i + 1 + |text|;
    assert [q] + text + [q] == [q] + (text + [q]);
    AtJoin(s, i, [q], text + [q]);
    AtJoin(s, i + 1, text, [q]);
    assert s[i] == s[i..i + 1][0] && s[k] == s[k..k + 1][0];
  }

  lemma LitComplete(s: string, i: nat, q: char, text: string)
    requires (q == '"' || q == '\'') && q !in text && At(s, i, [q] + text + [q])
    ensures var e := i + |text| + 2; ReadToken(s, i) == Good(Lit(q, text), e, e)
  {
    hide IsIdentStart, IdentEnd, FieldOf, At, TokenText, TokenOk;
    LitParts(s, i, q, text);
    FindQuoteExact(s, i + 1, text, q);
  }

  lemma RefComplete(s: string, i: nat, f: Field)
    requires At(s, i, FieldName(f)) && (i + |FieldName(f)| < |s| ==> !IsIdentChar(s[i + |FieldName(f)|]))
    ensures var e := i + |FieldName(f)|; ReadToken(s, i) == Good(Ref(f), e, e)
  {
    hide FieldName, FieldOf, FindQuote;
    var x := FieldName(f);
    FieldNames(f);
    assert s[i] == s[i..i + |x|][0];
    IdentEndExact(s, i, x);
  }

  lemma TokenComplete(s: string, i: nat, t: Token)
    requires TokenOk(t) && At(s, i, TokenText(t))
    requires t.Ref? && i + |TokenText(t)| < |s| ==> !IsIdentChar(s[i + |TokenText(t)|])
    ensures ReadToken(s, i) == Good(t, i + |TokenText(t)|, i + |TokenText(t)|)
  {
    hide ReadToken, FieldName, At;
    match t
    case Lit(q, text) => LitComplete(s, i, q, text);
    case Ref(f) => RefComplete(s, i, f);
  }

  predicate IsInk(c: char) { '!' <= c <= '~' }

  lemma TokenStart(t: Token)
    requires TokenOk(t)
    ensures var x := TokenText(t); x != "" && IsInk(x[0]) && x[0] != '(' && IsInk(x[|x| - 1])
  {
    if t.Ref? {
      var x := FieldName(t.field);
      assert x[0] == 'e' && x[|x| - 1] in "ehd";
    }
  }

  // ---------------------------------------------------------------------------
  // What may follow
  // ---------------------------------------------------------------------------

  predicate Ends(s: string, j: nat)
    requires j <= |s|
  {
    var k := Skip(s, j);
    k == |s| || s[k] == ')'
  }

  predicate EndsAnd(s: string, j: nat)
    requires j <= |s|
  {
    Ends(s, j) || At(s, Skip(s, j), "||")
  }

  predicate EndsCmp(s: string, j: nat)
    requires j <= |s|
  {
    EndsAnd(s, j) || At(s, Skip(s, j), "&&")
  }

  lemma OpAt(s: string, k: nat, op: string)
    requires At(s, k, op) && |op| == 2
    ensures s[k] == op[0] && s[k + 1] == op[1]
  {
    assert s[k..k + 2][0] == s[k] && s[k..k + 2][1] == s[k + 1];
  }

  lemma AfterCmp(s: string, j: nat)
    requires j <= |s| && EndsCmp(s, j)
    ensures j < |s| ==> !IsIdentChar(s[j])
    ensures !At(s, Skip(s, j), "==") && !At(s, Skip(s, j), "!=")
  {
    var k := Skip(s, j);
    if At(s, k, "==") { OpAt(s, k, "=="); }
    if At(s, k, "!=") { OpAt(s, k, "!="); }
    if At(s, k, "||") { OpAt(s, k, "||"); }
    if At(s, k, "&&") { OpAt(s, k, "&&"); }
    if j < k {
      assert s[j..k][0] == s[j];
    }
  }

  // ---------------------------------------------------------------------------
  // Every text of the grammar is read as its tree
  // ---------------------------------------------------------------------------

  lemma AtBound(s: string, i: nat, x: string)
    requires At(s, i, x)
    ensures i + |x| <= |s|
  {
  }

  lemma LeadThenToken(s: string, i: nat, lead: string, t: Token)
    requires At(s, i, lead) && Blanks(lead) && TokenOk(t) && At(s, i + |lead|, TokenText(t))
    ensures Skip(s, i) == i + |lead| < |s| && s[i..i + |lead|] == lead && s[i + |lead|] != '('
  {
    var k, x := i + |lead|, TokenText(t);
    TokenStart(t);
    assert s[k] == x[0] by { assert s[k..k + |x|][0] == s[k]; }
    SkipExact(s, i, lead);
  }

  lemma BareComplete(s: string, i: nat, t: CmpT)
    requires t.Bare? && CmpOk(t) && At(s, i, CmpText(t)) && i + |CmpText(t)| <= |s| && EndsCmp(s, i + |CmpText(t)|)
    ensures ReadCmp(s, i).Good? && ReadCmp(s, i).tree == t && ReadCmp(s, i).end == i + |CmpText(t)|
  {
    hide At, TokenText, TokenOk, EndsCmp, ReadToken, Skip, Blanks, Comparison, Spans;
    var k, x := i + |t.lead|, TokenText(t.v);
    AtJoin(s, i, t.lead, x);
    LeadThenToken(s, i, t.lead, t.v);
    AfterCmp(s, k + |x|);
    TokenComplete(s, k, t.v);
    ComparisonCases(s, i, k);
  }

  /** Where the parts of a comparison stand. */
  lemma CompareParts(s: string, i: nat, t: CmpT)
    requires t.Cmp? && At(s, i, CmpText(t))
    ensures var x, y, op := TokenText(t.x), TokenText(t.y), OpText(t.equal);
      var k := i + |t.lead|;
      var e := k + |x|;
      var m := e + |t.gap|;
      var n := m + 2 + |t.gap2|;
      && At(s, i, t.lead) && At(s, k, x) && At(s, e, t.gap) && At(s, m, op) && At(s, m + 2, t.gap2) && At(s, n, y)
      && n + |y| == i + |CmpText(t)| <= |s|
  {
    hide At, TokenText;
    var x, y, op := TokenText(t.x), TokenText(t.y), OpText(t.equal);
    var k := i + |t.lead|;
    var e := k + |x|;
    var m := e + |t.gap|;
    AtJoin(s, i, t.lead, x + (t.gap + (op + (t.gap2 + y))));
    AtJoin(s, k, x, t.gap + (op + (t.gap2 + y)));
    AtJoin(s, e, t.gap, op + (t.gap2 + y));
    AtJoin(s, m, op, t.gap2 + y);
    AtJoin(s, m + 2, t.gap2, y);
    AtBound(s, i, CmpText(t));
  }

  lemma OneOp(s: string, m: nat, equal: bool)
    requires At(s, m, OpText(equal))
    ensures At(s, m, "==") <==> equal
    ensures At(s, m, "!=") <==> !equal
    ensures m + 2 <= |s|
  {
    OpAt(s, m, OpText(equal));
    if At(s, m, "==") { OpAt(s, m, "=="); }
    if At(s, m, "!=") { OpAt(s, m, "!="); }
  }

  lemma JoinerFollows(s: string, e: nat, gap: string, op: string)
    requires At(s, e, gap) && Blanks(gap) && At(s, e + |gap|, op) && |op| == 2 && !IsBlank(op[0]) && !IsIdentChar(op[0])
    ensures Skip(s, e) == e + |gap| && s[e..e + |gap|] == gap && e < |s| && !IsIdentChar(s[e])
  {
    OpAt(s, e + |gap|, op);
    SkipExact(s, e, gap);
    if gap != "" {
      assert s[e..e + |gap|][0] == s[e];
    }
  }

  lemma OpFollows(s: string, e: nat, gap: string, equal: bool)
    requires At(s, e, gap) && Blanks(gap) && At(s, e + |gap|, OpText(equal))
    ensures Skip(s, e) == e + |gap| && s[e..e + |gap|] == gap && e < |s| && !IsIdentChar(s[e])
  {
    JoinerFollows(s, e, gap, OpText(equal));
  }

  /** What the reader meets on its way through a comparison. */
  lemma CompareTokens(s: string, i: nat, t: CmpT)
    requires t.Cmp? && CmpOk(t) && At(s, i, CmpText(t)) && i + |CmpText(t)| <= |s| && EndsCmp(s, i + |CmpText(t)|)
    ensures var k := i + |t.lead|;
      var e := k + |TokenText(t.x)|;
      var m := e + |t.gap|;
      var n := m + 2 + |t.gap2|;
      var end := n + |TokenText(t.y)|;
      && Skip(s, i) == k < |s| && s[k] != '(' && s[i..k] == t.lead && ReadToken(s, k) == Good(t.x, e, e)
      && e <= |s| && Skip(s, e) == m && s[e..m] == t.gap
      && (At(s, m, "==") <==> t.equal) && (At(s, m, "!=") <==> !t.equal)
      && m + 2 <= |s| && Skip(s, m + 2) == n && s[m + 2..n] == t.gap2 && ReadToken(s, n) == Good(t.y, end, end)
      && end == i + |CmpText(t)|
  {
    hide At, TokenText, TokenOk, EndsCmp, ReadToken, Skip, Blanks, CmpText, OpText, IsIdentChar, Spans;
    var k := i + |t.lead|;
    var e := k + |TokenText(t.x)|;
    var m := e + |t.gap|;
    var n := m + 2 + |t.gap2|;
    CompareParts(s, i, t);
    LeadThenToken(s, i, t.lead, t.x);
    OpFollows(s, e, t.gap, t.equal);
    OneOp(s, m, t.equal);
    LeadThenToken(s, m + 2, t.gap2, t.y);
    AfterCmp(s, n + |TokenText(t.y)|);
    TokenComplete(s, k, t.x);
    TokenComplete(s, n, t.y);
  }

  lemma CompareComplete(s: string, i: nat, t: CmpT)
    requires t.Cmp? && CmpOk(t) && At(s, i, CmpText(t)) && i + |CmpText(t)| <= |s| && EndsCmp(s, i + |CmpText(t)|)
    ensures ReadCmp(s, i).Good? && ReadCmp(s, i).tree == t && ReadCmp(s, i).end == i + |CmpText(t)|
  {
    hide At, TokenText, TokenOk, EndsCmp, ReadToken, Skip, CmpText, OpText, Comparison, Spans;
    CompareTokens(s, i, t);
    ComparisonCases(s, i, i + |t.lead|);
  }

  lemma ParenParts(s: string, i: nat, lead: string, x: string, gap: string)
    requires At(s, i, lead + ("(" + (x + (gap + ")"))))
    ensures var k := i + |lead|;
      var e := k + 1 + |x|;
      && At(s, i, lead) && k < |s| && s[k] == '(' && At(s, k + 1, x) && At(s, e, gap) && e + |gap| < |s|
        && s[e + |gap|] == ')'
      && s[i..k] == lead && s[e..e + |gap|] == gap
  {
    var k := i + |lead|;
    var e := k + 1 + |x|;
    AtJoin(s, i, lead, "(" + (x + (gap + ")")));
    AtJoin(s, k, "(", x + (gap + ")"));
    AtJoin(s, k + 1, x, gap + ")");
    AtJoin(s, e, gap, ")");
    assert s[k..k + 1][0] == s[k] && s[e + |gap|..e + |gap| + 1][0] == s[e + |gap|];
  }

  lemma ParenFollow(s: string, i: nat, t: CmpT)
    requires t.Paren? && CmpOk(t) && At(s, i, CmpText(t))
    ensures var k := i + |t.lead|;
      var e := k + 1 + |OrText(t.inner)|;
      && At(s, k + 1, OrText(t.inner)) && e <= |s| && Ends(s, e) && Skip(s, e) == e + |t.gap| < |s|
        && s[e + |t.gap|] == ')'
      && s[e..e + |t.gap|] == t.gap && Skip(s, i) == k < |s| && s[k] == '(' && s[i..k] == t.lead
        && |CmpText(t)| == e + |t.gap| + 1 - i
  {
    hide OrText, OrOk;
    ParenParts(s, i, t.lead, OrText(t.inner), t.gap);
    SkipExact(s, i, t.lead);
    SkipExact(s, i + |t.lead| + 1 + |OrText(t.inner)|, t.gap);
  }

  lemma ParenComplete(s: string, i: nat, t: CmpT)
    requires t.Paren? && CmpOk(t) && At(s, i, CmpText(t))
    requires var k := i + |t.lead|;
      k + 1 <= |s| && ReadOr(s, k + 1).Good? && ReadOr(s, k + 1).tree == t.inner
    ensures ReadCmp(s, i).Good? && ReadCmp(s, i).tree == t && ReadCmp(s, i).end == i + |CmpText(t)|
  {
    hide ReadOr, At, Skip, CmpText, OrText, OrOk, CloseParen, Blanks, Ends;
    ParenFollow(s, i, t);
    var k := i + |t.lead|;
    var o := ReadOr(s, k + 1);
    SkipThrough(s, o.end, o.next);
    ParenCases(s, i, k, o);
  }

  lemma NotBoth(s: string, e: nat)
    requires e <= |s|
    ensures EndsAnd(s, e) ==> EndsCmp(s, e) && !At(s, Skip(s, e), "&&")
    ensures Ends(s, e) ==> EndsAnd(s, e) && !At(s, Skip(s, e), "||")
  {
    var k := Skip(s, e);
    if At(s, k, "&&") { OpAt(s, k, "&&"); }
    if At(s, k, "||") { OpAt(s, k, "||"); }
  }

  lemma MoreParts(s: string, i: nat, l: string, gap: string, op: string, r: string)
    requires At(s, i, l + (gap + (op + r)))
    ensures At(s, i, l) && At(s, i + |l|, gap) && At(s, i + |l| + |gap|, op) && At(s, i + |l| + |gap| + |op|, r)
    ensures i + |l| + |gap| + |op| + |r| <= |s|
  {
    AtJoin(s, i, l, gap + (op + r));
    AtJoin(s, i + |l|, gap, op + r);
    AtJoin(s, i + |l| + |gap|, op, r);
  }

  lemma EndsByOp(s: string, e: nat, gap: string)
    requires e <= |s| && Skip(s, e) == e + |gap|
    ensures At(s, e + |gap|, "&&") ==> EndsCmp(s, e)
    ensures At(s, e + |gap|, "||") ==> EndsAnd(s, e)
    ensures EndsAnd(s, e) ==> EndsCmp(s, e)
    ensures Ends(s, e) ==> EndsAnd(s, e)
  {
  }

  predicate AndTurnsTo(s: string, i: nat, l: AndT, el: nat, nl: nat, t: AndT, end: nat, next: nat) {
    && AndOk(l) && Spans(s, i, AndText(l), el, nl) && AndOk(t) && Spans(s, i, AndText(t), end, next)
    && AndLoop(s, i, l, el, nl) == AndLoop(s, i, t, end, next)
  }

  /** One turn of the loop. */
  lemma AndTurn(s: string, i: nat, l: AndT, r: CmpT, el: nat, nl: nat, k: nat, next: nat)
    requires AndOk(l) && Spans(s, i, AndText(l), el, nl) && CmpOk(r)
    requires el <= k && k + 2 <= |s| && Skip(s, nl) == k && At(s, k, "&&")
    requires ReadCmp(s, k + 2) == Good(r, k + 2 + |CmpText(r)|, next)
    ensures AndTurnsTo(s, i, l, el, nl, AndMore(l, s[el..k], r), k + 2 + |CmpText(r)|, next)
  {
    hide ReadCmp, At, Skip, CmpText, CmpOk;
    BlanksJoin(s, el, nl, k);
    AndGrows(s, i, l, el, k, ReadCmp(s, k + 2));
  }

  lemma AndLoopStops(s: string, i: nat, t: AndT, end: nat, next: nat)
    requires AndOk(t) && Spans(s, i, AndText(t), end, next) && !At(s, Skip(s, end), "&&")
    ensures AndLoop(s, i, t, end, next) == Good(t, end, Skip(s, end))
  {
    hide At, Skip, AndText, AndOk;
    SkipThrough(s, end, next);
  }

  lemma {:induction false} AndComplete(s: string, i: nat, t: AndT)
    requires AndOk(t) && At(s, i, AndText(t)) && EndsAnd(s, i + |AndText(t)|)
    ensures ReadAnd(s, i).Good? && ReadAnd(s, i).tree == t && ReadAnd(s, i).end == i + |AndText(t)|
    decreases t, 2
  {
    hide ReadAnd, At, Skip, AndText, AndOk, AndLoop, EndsAnd, EndsCmp, Spans;
    var end := i + |AndText(t)|;
    AtBound(s, i, AndText(t));
    NotBoth(s, end);
    var next := AndReaches(s, i, t);
    AndLoopStops(s, i, t, end, next);
  }

  predicate OrTurnsTo(s: string, i: nat, l: OrT, el: nat, nl: nat, t: OrT, end: nat, next: nat) {
    && OrOk(l) && Spans(s, i, OrText(l), el, nl) && OrOk(t) && Spans(s, i, OrText(t), end, next)
    && OrLoop(s, i, l, el, nl) == OrLoop(s, i, t, end, next)
  }

  lemma OrTurn(s: string, i: nat, l: OrT, r: AndT, el: nat, nl: nat, k: nat, next: nat)
    requires OrOk(l) && Spans(s, i, OrText(l), el, nl) && AndOk(r)
    requires el <= k && k + 2 <= |s| && Skip(s, nl) == k && At(s, k, "||")
    requires ReadAnd(s, k + 2) == Good(r, k + 2 + |AndText(r)|, next)
    ensures OrTurnsTo(s, i, l, el, nl, OrMore(l, s[el..k], r), k + 2 + |AndText(r)|, next)
  {
    hide ReadAnd, At, Skip, AndText, AndOk;
    BlanksJoin(s, el, nl, k);
    OrGrows(s, i, l, el, k, ReadAnd(s, k + 2));
  }

  lemma {:induction false} OrReaches(s: string, i: nat, t: OrT) returns (next: nat)
    requires OrOk(t) && At(s, i, OrText(t)) && EndsAnd(s, i + |OrText(t)|)
    ensures var end := i + |OrText(t)|;
      Spans(s, i, OrText(t), end, next) && ReadOr(s, i) == OrLoop(s, i, t, end, next)
    decreases t, 3
  {
    hide ReadAnd, At, EndsAnd, EndsCmp, Skip, AndText, AndOk, OrLoop;
    match t
    case OneAnd(a) =>
      AndComplete(s, i, a);
      next := ReadAnd(s, i).next;
    case OrMore(l, gap, r) =>
      var el := i + |OrText(l)|;
      MoreParts(s, i, OrText(l), gap, "||", AndText(r));
      JoinerFollows(s, el, gap, "||");
      EndsByOp(s, el, gap);
      var nl := OrReaches(s, i, l);
      SkipThrough(s, el, nl);
      AndComplete(s, el + |gap| + 2, r);
      next := ReadAnd(s, el + |gap| + 2).next;
      OrTurn(s, i, l, r, el, nl, el + |gap|, next);
  }

  lemma OrLoopStops(s: string, i: nat, t: OrT, end: nat, next: nat)
    requires OrOk(t) && Spans(s, i, OrText(t), end, next) && !At(s, Skip(s, end), "||")
    ensures OrLoop(s, i, t, end, next) == Good(t, end, Skip(s, end))
  {
    hide At, Skip, OrText, OrOk;
    SkipThrough(s, end, next);
  }

  lemma {:induction false} OrComplete(s: string, i: nat, t: OrT)
    requires OrOk(t) && At(s, i, OrText(t)) && i + |OrText(t)| <= |s| && Ends(s, i + |OrText(t)|)
    ensures ReadOr(s, i).Good? && ReadOr(s, i).tree == t && ReadOr(s, i).end == i + |OrText(t)|
    decreases t, 4
  {
    hide ReadOr, At, Skip, OrText, OrOk, OrLoop, Ends, EndsAnd, Spans;
    var end := i + |OrText(t)|;
    AtBound(s, i, OrText(t));
    NotBoth(s, end);
    var next := OrReaches(s, i, t);
    OrLoopStops(s, i, t, end, next);
  }

  lemma {:induction false} CmpComplete(s: string, i: nat, t: CmpT)
    requires CmpOk(t) && At(s, i, CmpText(t)) && EndsCmp(s, i + |CmpText(t)|)
    ensures ReadCmp(s, i).Good? && ReadCmp(s, i).tree == t && ReadCmp(s, i).end == i + |CmpText(t)|
    decreases t, 0
  {
    hide ReadCmp, ReadOr, At, EndsCmp, Skip;
    AtBound(s, i, CmpText(t));
    match t
    case Bare(_, _) => BareComplete(s, i, t);
    case Cmp(_, _, _, _, _, _) => CompareComplete(s, i, t);
    case Paren(lead, inner, gap) =>
      ParenFollow(s, i, t);
      OrComplete(s, i + |lead| + 1, inner);
      ParenComplete(s, i, t);
  }

  /** Reading the text of t brings the loop of parseAnd to t. */
  lemma {:induction false} AndReaches(s: string, i: nat, t: AndT) returns (next: nat)
    requires AndOk(t) && At(s, i, AndText(t)) && EndsCmp(s, i + |AndText(t)|)
    ensures var end := i + |AndText(t)|;
      Spans(s, i, AndText(t), end, next) && ReadAnd(s, i) == AndLoop(s, i, t, end, next)
    decreases t, 1
  {
    hide ReadCmp, At, EndsCmp, Skip, CmpText, CmpOk, AndLoop;
    match t
    case OneCmp(c) =>
      CmpComplete(s, i, c);
      next := ReadCmp(s, i).next;
    case AndMore(l, gap, r) =>
      var el := i + |AndText(l)|;
      MoreParts(s, i, AndText(l), gap, "&&", CmpText(r));
      JoinerFollows(s, el, gap, "&&");
      EndsByOp(s, el, gap);
      var nl := AndReaches(s, i, l);
      SkipThrough(s, el, nl);
      CmpComplete(s, el + |gap| + 2, r);
      next := ReadCmp(s, el + |gap| + 2).next;
      AndTurn(s, i, l, r, el, nl, el + |gap|, next);
  }
}
