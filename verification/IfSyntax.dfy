/**
 * The `if:` expression language of internal/ciconfig: its abstract syntax and meaning, and its
 * texts as concrete trees that keep blanks and parentheses.
 */
module IfSyntax {
  /** The trigger context the fields refer to. */
  datatype Context = Context(eventType: string, branch: string, baseBranch: string, proposalID: string)

  datatype Field = EventType | EventBranch | EventBaseBranch | EventProposalID

  datatype Token = Lit(quote: char, text: string) | Ref(field: Field)

  /** Abstract syntax. */
  datatype Expr =
    | Or(left: Expr, right: Expr)
    | And(left: Expr, right: Expr)
    | Compare(x: Token, equal: bool, y: Token)
    | Truthy(v: Token)

  function FieldName(f: Field): string {
    match f
    case EventType => "event.type"
    case EventBranch => "event.branch"
    case EventBaseBranch => "event.base_branch"
    case EventProposalID => "event.proposal_id"
  }

  function Lookup(c: Context, f: Field): string {
    match f
    case EventType => c.eventType
    case EventBranch => c.branch
    case EventBaseBranch => c.baseBranch
    case EventProposalID => c.proposalID
  }

  function Value(c: Context, t: Token): string { if t.Lit? then t.text else Lookup(c, t.field) }

  /** The meaning of an expression. */
  function Eval(c: Context, e: Expr): bool {
    match e
    case Or(l, r) => Eval(c, l) || Eval(c, r)
    case And(l, r) => Eval(c, l) && Eval(c, r)
    case Compare(x, equal, y) => (Value(c, x) == Value(c, y)) == equal
    case Truthy(v) => Value(c, v) != ""
  }

  /** A literal does not contain its own quote character. */
  predicate TokenOk(t: Token) { t.Lit? ==> (t.quote == '"' || t.quote == '\'') && t.quote !in t.text }

  predicate ExprOk(e: Expr) {
    match e
    case Or(l, r) => ExprOk(l) && ExprOk(r)
    case And(l, r) => ExprOk(l) && ExprOk(r)
    case Compare(x, _, y) => TokenOk(x) && TokenOk(y)
    case Truthy(v) => TokenOk(v)
  }

  // ---------------------------------------------------------------------------
  // Concrete trees
  // ---------------------------------------------------------------------------

  datatype AndT = OneCmp(c: CmpT) | AndMore(l: AndT, gap: string, r: CmpT)

  /** l, blanks, "||", r; to the left as often as wanted. */
  datatype OrT = OneAnd(a: AndT) | OrMore(l: OrT, gap: string, r: AndT)

  datatype CmpT =
    | Paren(lead: string, inner: OrT, gap: string)
    | Bare(lead: string, v: Token)
    | Cmp(lead: string, x: Token, gap: string, equal: bool, gap2: string, y: Token)

  predicate IsBlank(c: char) { c == ' ' || c == '\t' }

  predicate Blanks(s: string) { forall i :: 0 <= i < |s| ==> IsBlank(s[i]) }

  function TokenText(t: Token): string { if t.Lit? then [t.quote] + t.text + [t.quote] else FieldName(t.field) }

  function OpText(equal: bool): string { if equal then "==" else "!=" }

  function AndText(t: AndT): string {
    match t
    case OneCmp(c) => CmpText(c)
    case AndMore(l, gap, r) => AndText(l) + (gap + ("&&" + CmpText(r)))
  }

  function OrText(t: OrT): string {
    match t
    case OneAnd(a) => AndText(a)
    case OrMore(l, gap, r) => OrText(l) + (gap + ("||" + AndText(r)))
  }

  function CmpText(t: CmpT): string {
    match t
    case Paren(lead, inner, gap) => lead + ("(" + (OrText(inner) + (gap + ")")))
    case Bare(lead, v) => lead + TokenText(v)
    case Cmp(lead, x, gap, equal, gap2, y) => lead + (TokenText(x) + (gap + (OpText(equal) + (gap2 + TokenText(y)))))
  }

  predicate AndOk(t: AndT) {
    match t
    case OneCmp(c) => CmpOk(c)
    case AndMore(l, gap, r) => AndOk(l) && Blanks(gap) && CmpOk(r)
  }

  predicate OrOk(t: OrT) {
    match t
    case OneAnd(a) => AndOk(a)
    case OrMore(l, gap, r) => OrOk(l) && Blanks(gap) && AndOk(r)
  }

  predicate CmpOk(t: CmpT) {
    match t
    case Paren(lead, inner, gap) => Blanks(lead) && OrOk(inner) && Blanks(gap)
    case Bare(lead, v) => Blanks(lead) && TokenOk(v)
    case Cmp(lead, x, gap, _, gap2, y) => Blanks(lead) && TokenOk(x) && Blanks(gap) && Blanks(gap2) && TokenOk(y)
  }

  function AbsAnd(t: AndT): Expr {
    match t
    case OneCmp(c) => AbsCmp(c)
    case AndMore(l, _, r) => And(AbsAnd(l), AbsCmp(r))
  }

  /** The expression a tree stands for: && binds tighter than ||, both to the left. */
  function AbsOr(t: OrT): Expr {
    match t
    case OneAnd(a) => AbsAnd(a)
    case OrMore(l, _, r) => Or(AbsOr(l), AbsAnd(r))
  }

  function AbsCmp(t: CmpT): Expr {
    match t
    case Paren(_, inner, _) => AbsOr(inner)
    case Bare(_, v) => Truthy(v)
    case Cmp(_, x, _, equal, _, y) => Compare(x, equal, y)
  }

  // ---------------------------------------------------------------------------
  // Rendering with the parentheses that are needed
  // ---------------------------------------------------------------------------

  function RenderAnd(e: Expr): AndT
    decreases e, if e.And? then 0 else if e.Or? then 3 else 1
  {
    if e.And? then AndMore(RenderAnd(e.left), " ", RenderCmp(e.right)) else OneCmp(RenderCmp(e))
  }

  function RenderOr(e: Expr): OrT
    decreases e, if e.Or? then 0 else if e.And? then 1 else 2
  {
    if e.Or? then OrMore(RenderOr(e.left), " ", RenderAnd(e.right)) else OneAnd(RenderAnd(e))
  }

  function RenderCmp(e: Expr): CmpT
    decreases e, if e.Or? || e.And? then 2 else 0
  {
    match e
    case Or(_, _) => Paren(" ", RenderOr(e), "")
    case And(_, _) => Paren(" ", RenderOr(e), "")
    case Compare(x, equal, y) => Cmp(" ", x, " ", equal, " ", y)
    case Truthy(v) => Bare(" ", v)
  }

  /** Rendering loses nothing: the tree of an expression stands for that expression. */
  lemma {:induction false} RenderStandsFor(e: Expr)
    requires ExprOk(e)
    ensures OrOk(RenderOr(e)) && AbsOr(RenderOr(e)) == e
    ensures AndOk(RenderAnd(e)) && AbsAnd(RenderAnd(e)) == e
    ensures CmpOk(RenderCmp(e)) && AbsCmp(RenderCmp(e)) == e
  {
    if e.Or? || e.And? {
      RenderStandsFor(e.left);
      RenderStandsFor(e.right);
      assert CmpOk(RenderCmp(e)) <==> OrOk(RenderOr(e));
    }
  }
}
