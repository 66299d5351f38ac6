/**
 * The parser of internal/ciconfig/expr.go: what it recognises, as functions of the text and a
 * position, and the parser itself, which evaluates while it advances.
 */
module IfParser {
  import opened Wrappers
  import opened IfSyntax

  /** A tree whose text ends at `end`, the position left at `next`; or an error, the position left at `at`. */
  datatype Parsed<+T> = Good(tree: T, end: nat, next: nat) | Bad(at: nat)

  /** x stands in s at i. */
  predicate At(s: string, i: nat, x: string) { i + |x| <= |s| && s[i..i + |x|] == x }

  function Skip(s: string, i: nat): (k: nat)
    requires i <= |s|
    ensures i <= k <= |s| && Blanks(s[i..k])
    ensures k < |s| ==> !IsBlank(s[k])
    decreases |s| - i
  {
    if i < |s| && IsBlank(s[i]) then
      var k := Skip(s, i + 1);
      assert forall j :: 0 < j < |s[i..k]| ==> s[i..k][j] == s[i + 1..k][j - 1];
      k
    else i
  }

  predicate IsIdentStart(c: char) { 'a' <= c <= 'z' || 'A' <= c <= 'Z' || c == '_' }

  predicate IsIdentChar(c: char) { IsIdentStart(c) || '0' <= c <= '9' || c == '.' }

  /** The first position from i on that holds q, or the end. */
  function FindQuote(s: string, i: nat, q: char): (k: nat)
    requires i <= |s|
    ensures i <= k <= |s| && q !in s[i..k] && (k < |s| ==> s[k] == q)
    decreases |s| - i
  {
    if i < |s| && s[i] != q then
      var k := FindQuote(s, i + 1, q);
      assert s[i..k] == [s[i]] + s[i + 1..k];
      k
    else i
  }

  function IdentEnd(s: string, i: nat): (k: nat)
    requires i <= |s|
    ensures i <= k <= |s| && (forall j :: i <= j < k ==> IsIdentChar(s[j])) && (k < |s| ==> !IsIdentChar(s[k]))
    ensures i < |s| && IsIdentChar(s[i]) ==> i < k
    decreases |s| - i
  {
    if i < |s| && IsIdentChar(s[i]) then IdentEnd(s, i + 1) else i
  }

  function FieldOf(name: string): (f: Option<Field>)
    ensures f.Some? ==> FieldName(f.value) == name
  {
    if name == "event.type" then Some(EventType)
    else if name == "event.branch" then Some(EventBranch)
    else if name == "event.base_branch" then Some(EventBaseBranch)
    else if name == "event.proposal_id" then Some(EventProposalID)
    else None
  }

  function ReadToken(s: string, i: nat): (p: Parsed<Token>)
    requires i <= |s|
    ensures p.Good? ==>
        TokenOk(p.tree) && i < p.end == p.next <= |s| && At(s, i, TokenText(p.tree)) && p.end == i + |TokenText(p.tree)|
    ensures p.Bad? ==> i <= p.at <= |s|
  {
    if i == |s| then Bad(i)
    else if s[i] == '"' || s[i] == '\'' then
      var k := FindQuote(s, i + 1, s[i]);
      if k == |s| then Bad(k)
      else
        assert s[i..k + 1] == [s[i]] + s[i + 1..k] + [s[k]];
        Good(Lit(s[i], s[i + 1..k]), k + 1, k + 1)
    else if IsIdentStart(s[i]) then
      var k := IdentEnd(s, i);
      var f := FieldOf(s[i..k]);
      if f.Some? then Good(Ref(f.value), k, k) else Bad(k)
    else Bad(i)
  }

  lemma AtJoin(s: string, i: nat, x: string, y: string)
    ensures At(s, i, x + y) <==> At(s, i, x) && At(s, i + |x|, y)
  {
    if i + |x| + |y| <= |s| {
      assert s[i..i + |x| + |y|] == s[i..i + |x|] + s[i + |x|..i + |x| + |y|];
      assert (x + y)[..|x|] == x && (x + y)[|x|..] == y;
    }
  }

  lemma AtSlice(s: string, i: nat, k: nat)
    requires i <= k <= |s|
    ensures At(s, i, s[i..k])
  {
  }

  /** What every parse function promises: the text of the tree stands from i to end, then blanks to next. */
  predicate Spans(s: string, i: nat, text: string, end: nat, next: nat) {
    end == i + |text| && i < end <= next <= |s| && At(s, i, text) && Blanks(s[end..next])
  }

  lemma SpansMore(s: string, i: nat, text: string, end: nat, k: nat, op: string, more: string, end2: nat, next2: nat)
    requires end == i + |text| && i < end <= k <= |s| && At(s, i, text) && At(s, k, op)
    requires Spans(s, k + |op|, more, end2, next2)
    ensures Spans(s, i, text + (s[end..k] + (op + more)), end2, next2)
  {
    AtJoin(s, k, op, more);
    AtJoin(s, end, s[end..k], op + more);
    AtJoin(s, i, text, s[end..k] + (op + more));
  }

  lemma AndGrows(s: string, i: nat, t: AndT, end: nat, k: nat, c: Parsed<CmpT>)
    requires AndOk(t) && Spans(s, i, AndText(t), end, k) && At(s, k, "&&")
    requires c.Good? && CmpOk(c.tree) && Spans(s, k + 2, CmpText(c.tree), c.end, c.next)
    ensures AndOk(AndMore(t, s[end..k], c.tree)) && Spans(s, i, AndText(AndMore(t, s[end..k], c.tree)), c.end, c.next)
  {
    SpansMore(s, i, AndText(t), end, k, "&&", CmpText(c.tree), c.end, c.next);
  }

  lemma BlanksJoin(s: string, i: nat, j: nat, k: nat)
    requires i <= j <= k <= |s| && Blanks(s[i..j]) && Blanks(s[j..k])
    ensures Blanks(s[i..k])
  {
    assert s[i..k] == s[i..j] + s[j..k];
  }

  lemma SpansParen(s: string, i: nat, k: nat, text: string, end: nat, m: nat)
    requires i <= k < end <= m < |s| && s[k] == '(' && s[m] == ')' && At(s, k + 1, text) && end == k + 1 + |text|
    ensures Spans(s, i, s[i..k] + ("(" + (text + (s[end..m] + ")"))), m + 1, m + 1)
  {
    assert At(s, k, "(") && At(s, m, ")");
    AtJoin(s, end, s[end..m], ")");
    AtJoin(s, k + 1, text, s[end..m] + ")");
    AtJoin(s, k, "(", text + (s[end..m] + ")"));
    AtJoin(s, i, s[i..k], "(" + (text + (s[end..m] + ")")));
  }

  function CloseParen(s: string, i: nat, k: nat, o: Parsed<OrT>): (p: Parsed<CmpT>)
    requires i <= k < |s| && Blanks(s[i..k]) && s[k] == '('
    requires o.Good? ==> OrOk(o.tree) && Spans(s, k + 1, OrText(o.tree), o.end, o.next)
    requires o.Bad? ==> k + 1 <= o.at <= |s|
    ensures p.Good? ==> CmpOk(p.tree) && Spans(s, i, CmpText(p.tree), p.end, p.next)
    ensures p.Bad? ==> i <= p.at <= |s|
  {
    if o.Bad? then Bad(o.at)
    else
      var m := Skip(s, o.next);
      if m < |s| && s[m] == ')' then
        BlanksJoin(s, o.end, o.next, m);
        SpansParen(s, i, k, OrText(o.tree), o.end, m);
        Good(Paren(s[i..k], o.tree, s[o.end..m]), m + 1, m + 1)
      else Bad(m)
  }

  lemma SliceJoin(s: string, i: nat, k: nat, x: string)
    requires i <= k <= |s|
    ensures At(s, i, s[i..k] + x) <==> At(s, k, x)
  {
    AtSlice(s, i, k);
    AtJoin(s, i, s[i..k], x);
  }

  lemma NothingBlank(s: string, i: nat)
    ensures i <= |s| ==> Blanks(s[i..i])
  {
  }

  lemma SpansCmp(s: string, i: nat, k: nat, x: Token, m: nat, equal: bool, n: nat, y: Token, end: nat)
    requires i <= k && At(s, k, TokenText(x)) && k + |TokenText(x)| <= m && At(s, m, OpText(equal)) && m + 2 <= n <= |s|
    requires At(s, n, TokenText(y)) && end == n + |TokenText(y)| && n < end <= |s|
    ensures Spans(s, i, CmpText(Cmp(s[i..k], x, s[k + |TokenText(x)|..m], equal, s[m + 2..n], y)), end, end)
  {
    hide At, TokenText;
    var e := k + |TokenText(x)|;
    var right := OpText(equal) + (s[m + 2..n] + TokenText(y));
    SliceJoin(s, m + 2, n, TokenText(y));
    AtJoin(s, m, OpText(equal), s[m + 2..n] + TokenText(y));
    SliceJoin(s, e, m, right);
    AtJoin(s, k, TokenText(x), s[e..m] + right);
    SliceJoin(s, i, k, TokenText(x) + (s[e..m] + right));
    NothingBlank(s, end);
  }

  function RightHand(s: string, i: nat, k: nat, x: Token, m: nat, equal: bool): (p: Parsed<CmpT>)
    requires i <= k <= |s| && Blanks(s[i..k]) && TokenOk(x) && At(s, k, TokenText(x))
    requires k + |TokenText(x)| <= m <= |s| && Blanks(s[k + |TokenText(x)|..m]) && At(s, m, OpText(equal))
    ensures p.Good? ==> CmpOk(p.tree) && Spans(s, i, CmpText(p.tree), p.end, p.next)
    ensures p.Bad? ==> i <= p.at <= |s|
  {
    var n := Skip(s, m + 2);
    var y := ReadToken(s, n);
    if y.Bad? then Bad(y.at)
    else
      SpansCmp(s, i, k, x, m, equal, n, y.tree, y.end);
      Good(Cmp(s[i..k], x, s[k + |TokenText(x)|..m], equal, s[m + 2..n], y.tree), y.end, y.end)
  }

  /** The rest of parseComparison, the position at k after the leading blanks. */
  function Comparison(s: string, i: nat, k: nat): (p: Parsed<CmpT>)
    requires i <= k <= |s| && Blanks(s[i..k])
    ensures p.Good? ==> CmpOk(p.tree) && Spans(s, i, CmpText(p.tree), p.end, p.next)
    ensures p.Bad? ==> i <= p.at <= |s|
  {
    var x := ReadToken(s, k);
    if x.Bad? then Bad(x.at)
    else
      var m := Skip(s, x.next);
      if At(s, m, "==") then RightHand(s, i, k, x.tree, m, true)
      else if At(s, m, "!=") then RightHand(s, i, k, x.tree, m, false)
      else
        AtJoin(s, i, s[i..k], TokenText(x.tree));
        Good(Bare(s[i..k], x.tree), x.end, m)
  }

  function AndLoop(s: string, i: nat, t: AndT, end: nat, next: nat): (p: Parsed<AndT>)
    requires AndOk(t) && Spans(s, i, AndText(t), end, next)
    ensures p.Good? ==> AndOk(p.tree) && Spans(s, i, AndText(p.tree), p.end, p.next)
    ensures p.Bad? ==> i <= p.at <= |s|
    decreases |s| - end, 1
  {
    hide AndText, AndOk, CmpText, CmpOk;
    var k := Skip(s, next);
    BlanksJoin(s, end, next, k);
    if !At(s, k, "&&") then Good(t, end, k)
    else
      var c := ReadCmp(s, k + 2);
      if c.Bad? then Bad(c.at)
      else
        AndGrows(s, i, t, end, k, c);
        AndLoop(s, i, AndMore(t, s[end..k], c.tree), c.end, c.next)
  }

  function ReadAnd(s: string, i: nat): (p: Parsed<AndT>)
    requires i <= |s|
    ensures p.Good? ==> AndOk(p.tree) && Spans(s, i, AndText(p.tree), p.end, p.next)
    ensures p.Bad? ==> i <= p.at <= |s|
    decreases |s| - i, 2
  {
    var c := ReadCmp(s, i);
    if c.Bad? then Bad(c.at) else AndLoop(s, i, OneCmp(c.tree), c.end, c.next)
  }

  lemma OrGrows(s: string, i: nat, t: OrT, end: nat, k: nat, a: Parsed<AndT>)
    requires OrOk(t) && Spans(s, i, OrText(t), end, k) && At(s, k, "||")
    requires a.Good? && AndOk(a.tree) && Spans(s, k + 2, AndText(a.tree), a.end, a.next)
    ensures OrOk(OrMore(t, s[end..k], a.tree)) && Spans(s, i, OrText(OrMore(t, s[end..k], a.tree)), a.end, a.next)
  {
    SpansMore(s, i, OrText(t), end, k, "||", AndText(a.tree), a.end, a.next);
  }

  /** The loop of parseOr: t was read from i, the position is next. */
  function OrLoop(s: string, i: nat, t: OrT, end: nat, next: nat): (p: Parsed<OrT>)
    requires OrOk(t) && Spans(s, i, OrText(t), end, next)
    ensures p.Good? ==> OrOk(p.tree) && Spans(s, i, OrText(p.tree), p.end, p.next)
    ensures p.Bad? ==> i <= p.at <= |s|
    decreases |s| - end, 3
  {
    hide OrText, OrOk, AndText, AndOk;
    var k := Skip(s, next);
    BlanksJoin(s, end, next, k);
    if !At(s, k, "||") then Good(t, end, k)
    else
      var a := ReadAnd(s, k + 2);
      if a.Bad? then Bad(a.at)
      else
        OrGrows(s, i, t, end, k, a);
        OrLoop(s, i, OrMore(t, s[end..k], a.tree), a.end, a.next)
  }

  function ReadOr(s: string, i: nat): (p: Parsed<OrT>)
    requires i <= |s|
    ensures p.Good? ==> OrOk(p.tree) && Spans(s, i, OrText(p.tree), p.end, p.next)
    ensures p.Bad? ==> i <= p.at <= |s|
    decreases |s| - i, 4
  {
    var a := ReadAnd(s, i);
    if a.Bad? then Bad(a.at) else OrLoop(s, i, OneAnd(a.tree), a.end, a.next)
  }

  function ReadCmp(s: string, i: nat): (p: Parsed<CmpT>)
    requires i <= |s|
    ensures p.Good? ==> CmpOk(p.tree) && Spans(s, i, CmpText(p.tree), p.end, p.next)
    ensures p.Bad? ==> i <= p.at <= |s|
    decreases |s| - i, 0
  {
    var k := Skip(s, i);
    if k < |s| && s[k] == '(' then CloseParen(s, i, k, ReadOr(s, k + 1)) else Comparison(s, i, k)
  }

  // ---------------------------------------------------------------------------
  // The parser
  // ---------------------------------------------------------------------------

  /** The bytes of one white-space character, as unicode.IsSpace has it, in UTF-8. */
  predicate IsSpace(w: string) {
    match |w|
    case 1 => w[0] in "\t\n\r " || w[0] == '\U{0B}' || w[0] == '\U{0C}'
    case 2 => w[0] == '\U{C2}' && (w[1] == '\U{85}' || w[1] == '\U{A0}')
    case 3 =>
      || (w[..2] == "\U{E1}\U{9A}" && w[2] == '\U{80}')
      || (w[..2] == "\U{E2}\U{80}" && ('\U{80}' <= w[2] <= '\U{8A}' || w[2] in "\U{A8}\U{A9}\U{AF}"))
      || (w[..2] == "\U{E2}\U{81}" && w[2] == '\U{9F}')
      || (w[..2] == "\U{E3}\U{80}" && w[2] == '\U{80}')
    case _ => false
  }

  /** The length of the white-space character a text begins with, or 0. */
  function LeadSpace(s: string): (n: nat)
    ensures n <= |s|
  {
    if |s| >= 1 && IsSpace(s[..1]) then 1
    else if |s| >= 2 && IsSpace(s[..2]) then 2
    else if |s| >= 3 && IsSpace(s[..3]) then 3
    else 0
  }

  /** The length of the white-space character a text ends with, or 0. */
  function LastSpace(s: string): (n: nat)
    ensures n <= |s|
  {
    if |s| >= 1 && IsSpace(s[|s| - 1..]) then 1
    else if |s| >= 2 && IsSpace(s[|s| - 2..]) then 2
    else if |s| >= 3 && IsSpace(s[|s| - 3..]) then 3
    else 0
  }

  /** strings.TrimSpace. */
  function TrimLeft(s: string): string { if LeadSpace(s) == 0 then s else TrimLeft(s[LeadSpace(s)..]) }

  function TrimRight(s: string): string {
    if LastSpace(s) == 0 then s else TrimRight(s[..|s| - LastSpace(s)])
  }

  function Trim(s: string): string { TrimRight(TrimLeft(s)) }

  /** What EvalIf is to return; an error carries the position it was found at. */
  function Meaning(expr: string, c: Context): Result<bool, nat> {
    var s := Trim(expr);
    if s == "" then Ok(true)
    else
      match ReadOr(s, 0)
      case Bad(at) => Err(at)
      case Good(t, _, next) => if Skip(s, next) == |s| then Ok(Eval(c, AbsOr(t))) else Err(Skip(s, next))
  }

  lemma RightHandCases(s: string, i: nat, k: nat, x: Token, m: nat, equal: bool)
    requires i <= k <= |s| && Blanks(s[i..k]) && TokenOk(x) && At(s, k, TokenText(x))
    requires k + |TokenText(x)| <= m <= |s| && Blanks(s[k + |TokenText(x)|..m]) && At(s, m, OpText(equal))
    ensures m + 2 <= |s|
    ensures var p, y := RightHand(s, i, k, x, m, equal), ReadToken(s, Skip(s, m + 2));
      if y.Bad? then p == Bad(y.at)
      else p == Good(Cmp(s[i..k], x, s[k + |TokenText(x)|..m], equal, s[m + 2..Skip(s, m + 2)], y.tree), y.end, y.next)
  {
    hide ReadToken, Skip, CmpText, CmpOk, TokenText, TokenOk, Blanks;
  }

  /** The outcomes of Comparison. */
  lemma ComparisonCases(s: string, i: nat, k: nat)
    requires i <= k <= |s| && Blanks(s[i..k])
    ensures var p, x := Comparison(s, i, k), ReadToken(s, k);
      if x.Bad? then p == Bad(x.at)
      else
        var m := Skip(s, x.next);
        if At(s, m, "==") || At(s, m, "!=") then
          var y := ReadToken(s, Skip(s, m + 2));
          if y.Bad? then p == Bad(y.at)
          else p == Good(Cmp(s[i..k], x.tree, s[x.end..m], At(s, m, "=="), s[m + 2..Skip(s, m + 2)], y.tree),
            y.end, y.next)
        else p == Good(Bare(s[i..k], x.tree), x.end, m)
  {
    hide ReadToken, Skip, CmpText, CmpOk, TokenText, TokenOk, Spans, At, Blanks, RightHand;
    var x := ReadToken(s, k);
    if x.Good? {
      var m := Skip(s, x.next);
      if At(s, m, "==") {
        RightHandCases(s, i, k, x.tree, m, true);
      } else if At(s, m, "!=") {
        RightHandCases(s, i, k, x.tree, m, false);
      }
    }
  }

  lemma ParenCases(s: string, i: nat, k: nat, o: Parsed<OrT>)
    requires i <= k < |s| && Blanks(s[i..k]) && s[k] == '('
    requires o.Good? ==> OrOk(o.tree) && Spans(s, k + 1, OrText(o.tree), o.end, o.next)
    requires o.Bad? ==> k + 1 <= o.at <= |s|
    ensures var p := CloseParen(s, i, k, o);
      if o.Bad? then p == Bad(o.at)
      else
        var m := Skip(s, o.next);
        if m < |s| && s[m] == ')' then p == Good(Paren(s[i..k], o.tree, s[o.end..m]), m + 1, m + 1)
        else p == Bad(m)
  {
    hide Skip, CmpText, OrText;
  }

  lemma SkipAgain(s: string, i: nat)
    requires i <= |s|
    ensures Skip(s, Skip(s, i)) == Skip(s, i)
  {
  }

  lemma OneCmpText(c: CmpT)
    ensures AndText(OneCmp(c)) == CmpText(c) && (CmpOk(c) ==> AndOk(OneCmp(c)))
  {
  }

  lemma OneAndText(a: AndT)
    ensures OrText(OneAnd(a)) == AndText(a) && (AndOk(a) ==> OrOk(OneAnd(a)))
  {
  }

  class Parser {
    const input: string
    const ctx: Context
    var pos: nat

    constructor (input: string, ctx: Context)
      ensures this.input == input && this.ctx == ctx && pos == 0
    {
      this.input, this.ctx, pos := input, ctx, 0;
    }

    method SkipWS()
      requires pos <= |input|
      modifies this
      ensures pos == Skip(input, old(pos))
    {
      while pos < |input| && IsBlank(input[pos])
        invariant pos <= |input| && Skip(input, pos) == Skip(input, old(pos))
      {
        pos := pos + 1;
      }
    }

    method Consume(lit: string) returns (ok: bool)
      requires pos <= |input|
      modifies this
      ensures ok == At(input, old(pos), lit) && pos == if ok then old(pos) + |lit| else old(pos)
    {
      ok := pos + |lit| <= |input| && input[pos..pos + |lit|] == lit;
      if ok {
        pos := pos + |lit|;
      }
    }

    method ParseStringLiteral(quote: char) returns (r: Result<string, nat>)
      requires pos < |input|
      modifies this
      ensures var k := FindQuote(input, old(pos) + 1, quote);
        if k == |input| then r == Err(k) && pos == k else r == Ok(input[old(pos) + 1..k]) && pos == k + 1
    {
      pos := pos + 1;
      var start := pos;
      while pos < |input| && input[pos] != quote
        invariant start <= pos <= |input| && FindQuote(input, pos, quote) == FindQuote(input, start, quote)
      {
        pos := pos + 1;
      }
      if pos >= |input| {
        return Err(pos);
      }
      var val := input[start..pos];
      pos := pos + 1;
      r := Ok(val);
    }

    method ParseFieldRef() returns (r: Result<string, nat>)
      requires pos <= |input|
      modifies this
      ensures var k := IdentEnd(input, old(pos));
        var f := FieldOf(input[old(pos)..k]);
        pos == k && r == if f.Some? then Ok(Lookup(ctx, f.value)) else Err(k)
    {
      var start := pos;
      while pos < |input| && IsIdentChar(input[pos])
        invariant start <= pos <= |input| && IdentEnd(input, pos) == IdentEnd(input, start)
      {
        pos := pos + 1;
      }
      var field := FieldOf(input[start..pos]);
      match field
      case Some(f) => r := Ok(Lookup(ctx, f));
      case None => r := Err(pos);
    }

    method ParseValue() returns (r: Result<string, nat>)
      requires pos <= |input|
      modifies this
      ensures match ReadToken(input, Skip(input, old(pos)))
        case Bad(at) => r == Err(at) && pos == at
        case Good(t, _, next) => r == Ok(Value(ctx, t)) && pos == next
    {
      hide FindQuote, IdentEnd, FieldOf, Skip, TokenText, At;
      SkipWS();
      if pos >= |input| {
        return Err(pos);
      }
      var ch := input[pos];
      if ch == '"' {
        r := ParseStringLiteral('"');
      } else if ch == '\'' {
        r := ParseStringLiteral('\'');
      } else if IsIdentStart(ch) {
        r := ParseFieldRef();
      } else {
        r := Err(pos);
      }
    }

    /** The operands and operator of a comparison, after its leading blanks. */
    method ParseOperands(ghost i: nat) returns (r: Result<bool, nat>)
      requires i <= pos <= |input| && pos == Skip(input, pos) && Blanks(input[i..pos])
      modifies this
      ensures match Comparison(input, i, old(pos))
        case Bad(at) => r == Err(at) && pos == at
        case Good(t, _, next) => r == Ok(Eval(ctx, AbsCmp(t))) && pos == next
    {
      hide ReadToken, Comparison, Blanks, CmpText, CmpOk, TokenText, TokenOk, Spans;
      ComparisonCases(input, i, pos);
      SkipAgain(input, pos);
      var left := ParseValue();
      if left.Err? {
        return Err(left.error);
      }
      SkipWS();
      var equal := Consume("==");
      if !equal {
        var unequal := Consume("!=");
        if !unequal {
          return Ok(left.value != "");
        }
      }
      var right := ParseValue();
      if right.Err? {
        return Err(right.error);
      }
      r := Ok((left.value == right.value) == equal);
    }

    method ParseComparison() returns (r: Result<bool, nat>)
      requires pos <= |input|
      modifies this
      decreases |input| - pos, 0
      ensures match ReadCmp(input, old(pos))
        case Bad(at) => r == Err(at) && pos == at
        case Good(t, _, next) => r == Ok(Eval(ctx, AbsCmp(t))) && pos == next
    {
      hide Comparison, CloseParen, At, Blanks, CmpText, CmpOk, OrText, OrOk, ReadOr;
      ghost var i := pos;
      SkipAgain(input, pos);
      SkipWS();
      if pos < |input| && input[pos] == '(' {
        ghost var o := ReadOr(input, pos + 1);
        ParenCases(input, i, pos, o);
        pos := pos + 1;
        var result := ParseOr();
        if result.Err? {
          return result;
        }
        SkipWS();
        if pos >= |input| || input[pos] != ')' {
          return Err(pos);
        }
        pos := pos + 1;
        return result;
      }
      r := ParseOperands(i);
    }

    method ParseAnd() returns (r: Result<bool, nat>)
      requires pos <= |input|
      modifies this
      decreases |input| - pos, 2
      ensures match ReadAnd(input, old(pos))
        case Bad(at) => r == Err(at) && pos == at
        case Good(t, _, next) => r == Ok(Eval(ctx, AbsAnd(t))) && pos == next
    {
      hide ReadCmp, At, AndText, AndOk, CmpText, CmpOk;
      ghost var c, i := ReadCmp(input, pos), pos;
      var left := ParseComparison();
      if left.Err? {
        return left;
      }
      ghost var t, end := OneCmp(c.tree), c.end;
      assert AndText(t) == CmpText(c.tree) && AndOk(t) by { OneCmpText(c.tree); }
      while true
        invariant left.Ok? && AndOk(t) && Spans(input, i, AndText(t), end, pos) && left.value == Eval(ctx, AbsAnd(t))
        invariant ReadAnd(input, i) == AndLoop(input, i, t, end, pos)
        decreases |input| - pos
      {
        ghost var before := pos;
        SkipWS();
        ghost var k := pos;
        var more := Consume("&&");
        if !more {
          break;
        }
        c := ReadCmp(input, pos);
        var right := ParseComparison();
        if right.Err? {
          return right;
        }
        BlanksJoin(input, end, before, k);
        AndGrows(input, i, t, end, k, c);
        t, end := AndMore(t, input[end..k], c.tree), c.end;
        left := Ok(left.value && right.value);
      }
      r := left;
    }

    method ParseOr() returns (r: Result<bool, nat>)
      requires pos <= |input|
      modifies this
      decreases |input| - pos, 4
      ensures match ReadOr(input, old(pos))
        case Bad(at) => r == Err(at) && pos == at
        case Good(t, _, next) => r == Ok(Eval(ctx, AbsOr(t))) && pos == next
    {
      hide ReadAnd, At, OrText, OrOk, AndText, AndOk;
      ghost var a, i := ReadAnd(input, pos), pos;
      var left := ParseAnd();
      if left.Err? {
        return left;
      }
      ghost var t, end := OneAnd(a.tree), a.end;
      assert OrText(t) == AndText(a.tree) && OrOk(t) by { OneAndText(a.tree); }
      while true
        invariant left.Ok? && OrOk(t) && Spans(input, i, OrText(t), end, pos) && left.value == Eval(ctx, AbsOr(t))
        invariant ReadOr(input, i) == OrLoop(input, i, t, end, pos)
        decreases |input| - pos
      {
        ghost var before := pos;
        SkipWS();
        ghost var k := pos;
        var more := Consume("||");
        if !more {
          break;
        }
        a := ReadAnd(input, pos);
        var right := ParseAnd();
        if right.Err? {
          return right;
        }
        BlanksJoin(input, end, before, k);
        OrGrows(input, i, t, end, k, a);
        t, end := OrMore(t, input[end..k], a.tree), a.end;
        left := Ok(left.value || right.value);
      }
      r := left;
    }
  }

  /** EvalIf returns the meaning of the text. */
  method EvalIf(expr: string, ctx: Context) returns (r: Result<bool, nat>)
    ensures r == Meaning(expr, ctx)
  {
    hide ReadOr;
    var s := Trim(expr);
    if s == "" {
      return Ok(true);
    }
    var p := new Parser(s, ctx);
    r := p.ParseOr();
    if r.Err? {
      return r;
    }
    p.SkipWS();
    if p.pos != |p.input| {
      return Err(p.pos);
    }
  }
}
