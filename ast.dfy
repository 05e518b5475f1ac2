/** The expression node family of the Ada parser (exprs.py:10-255).

    Every node is an immutable value. The langkit fields are untyped; here
    each field gets the type of the nodes the grammar rules can put in it.
    `CaseExprAlternative`, `ParamAssoc`, `AggregateAssoc`, `ElsifExprPart`,
    `ForLoopSpec` and the aggregate contents are supporting values with their
    own datatypes; source ranges and the kept `(` token of a call are not
    modelled. */
module Ast {
  import opened Tokens

  datatype Option<+T> = None | Some(value: T)

  /** Operation in a unary, binary or membership expression (exprs.py:68-74). */
  datatype Op =
    | AndOp | OrOp | OrElseOp | AndThenOp | XorOp | InOp | NotInOp | AbsOp
    | NotOp | PowOp | MultOp | DivOp | ModOp | RemOp | PlusOp | MinusOp
    | BinAndOp | EqOp | NeqOp | LtOp | LteOp | GtOp | GteOp | EllipsisOp

  /** exprs.py:189-191 */
  datatype Quantifier = AllItems | SomeItems

  /** exprs.py:194-196 */
  datatype IterType = InIter | OfIter

  datatype Expr =
    | UnOp(op: Op, expr: Expr)
    | BinOp(left: Expr, op: Op, right: Expr)
    | MembershipExpr(expr: Expr, op: Op, membershipExprs: seq<Choice>)
    | Aggregate(ancestorExpr: Option<Expr>, assocs: AbstractAggregateContent)
    | CallExpr(name: Expr, callSuffix: CallSuffix)
    | AccessDeref
    | DiamondExpr
    | IfExpr(condExpr: Expr, thenExpr: Expr, elsifList: seq<ElsifExprPart>, elseExpr: Option<Expr>)
    | CaseExpr(expr: Expr, cases: seq<CaseExprAlternative>)
    | QuantifiedExpr(quantifier: Quantifier, loopSpec: ForLoopSpec, expr: Expr)
    | Allocator(subpool: Option<Expr>, expr: Expr)
    | QualExpr(prefix: Expr, suffix: Expr)
    | AttributeRef(prefix: Expr, attribute: Expr, args: Option<CallSuffix>)
    | RaiseExpression(exceptionName: Option<Expr>, errorMessage: Option<Expr>)
    | Prefix(prefix: Expr, suffix: Expr)
      // BaseName family
    | NamePrefix(prefix: Expr, suffix: Expr)
    | Identifier(tok: Token)
    | StringLiteral(tok: Token)
    | EnumIdentifier(tok: Token)
      // SingleTokNode family
    | CharLiteral(tok: Token)
    | NumLiteral(tok: Token)
    | NullLiteral(tok: Token)
    | Attribute(tok: Token)

  /** What follows the `(` of a call or attribute reference: an array-slice
      range, or a list of parameter associations. */
  datatype CallSuffix = RangeSuffix(discreteRange: Expr) | ParamList(params: seq<ParamAssoc>)

  /** A choice of a choice list (a range or an expression), `others`, or the
      designator of a parameter association (an identifier, a string literal
      or `others`). */
  datatype Choice = ChoiceExpr(expr: Expr) | OthersDesignator

  datatype ParamAssoc = ParamAssoc(designator: Option<Choice>, expr: Expr)

  /** The three alternatives of `aggregate_field`. */
  datatype AggregateField = AggregateMember(choiceList: seq<Choice>) | FieldChoice(choice: Choice)

  datatype AggregateAssoc = AggregateAssoc(designator: Option<AggregateField>, expr: Expr)

  /** `AggregateContent`, or the null node that `null record` produces. */
  datatype AbstractAggregateContent = AggregateContent(fields: seq<AggregateAssoc>) | NullRecordContent

  datatype ElsifExprPart = ElsifExprPart(condExpr: Expr, thenExpr: Expr)

  datatype CaseExprAlternative = CaseExprAlternative(choices: seq<Choice>, expr: Expr)

  datatype ForLoopSpec = ForLoopSpec(id: Expr, loopType: IterType, isReverse: bool, iterExpr: Expr)

  // ---------------------------------------------------------------------
  // Operator classes, one per precedence level of the grammar.

  predicate IsBooleanOp(op: Op) {
    op == XorOp || op == AndThenOp || op == AndOp || op == OrElseOp || op == OrOp
  }

  predicate IsRelationalOp(op: Op) {
    op == EqOp || op == NeqOp || op == LtOp || op == LteOp || op == GtOp || op == GteOp
  }

  predicate IsMembershipOp(op: Op) {
    op == InOp || op == NotInOp
  }

  predicate IsAddingOp(op: Op) {
    op == PlusOp || op == MinusOp || op == BinAndOp
  }

  predicate IsUnaryAddingOp(op: Op) {
    op == PlusOp || op == MinusOp
  }

  predicate IsMultiplyingOp(op: Op) {
    op == MultOp || op == DivOp || op == ModOp || op == RemOp
  }

  predicate IsHighestPrecedenceOp(op: Op) {
    op == AbsOp || op == NotOp
  }

  predicate IsUnaryOp(op: Op) {
    IsUnaryAddingOp(op) || IsHighestPrecedenceOp(op)
  }

  predicate IsBinaryOp(op: Op) {
    IsBooleanOp(op) || IsRelationalOp(op) || IsAddingOp(op) || IsMultiplyingOp(op)
    || op == PowOp || op == EllipsisOp
  }

  // ---------------------------------------------------------------------
  // Node families

  predicate IsBaseId(e: Expr) {
    e.Identifier? || e.StringLiteral? || e.EnumIdentifier?
  }

  /** BaseName (exprs.py:99-122): a dotted chain of identifiers or string literals. */
  predicate IsBaseName(e: Expr) {
    match e
    case NamePrefix(p, s) => IsBaseName(p) && IsBaseName(s)
    case _ => IsBaseId(e)
  }

  predicate IsSingleTokNode(e: Expr) {
    e.CharLiteral? || e.NumLiteral? || e.NullLiteral? || e.Attribute?
  }

  // ---------------------------------------------------------------------
  // The structural invariant every rule of the grammar establishes (proved
  // rule by rule in module WellFormedness): the
  // operator of a UnOp, BinOp or MembershipExpr is of the right class, a
  // leaf holds a token of the kind its rule matches, and every list built
  // with a non-empty `List` combinator has at least one element.

  predicate LeafWellFormed(e: Expr) {
    match e
    case Identifier(t) => t.IdentTok?
    case EnumIdentifier(t) => t.IdentTok?
    case StringLiteral(t) => t.StringTok?
    case CharLiteral(t) => t.CharTok?
    case NumLiteral(t) => t.NumberTok?
    case NullLiteral(t) => t == Sym(KwNull)
    case Attribute(t) => IsAttributeKeyword(t)
    case _ => true
  }

  predicate OptWellFormed(o: Option<Expr>) {
    match o
    case None => true
    case Some(e) => WellFormed(e)
  }

  predicate WellFormed(e: Expr) {
    match e
    case UnOp(op, x) => IsUnaryOp(op) && WellFormed(x)
    case BinOp(l, op, r) => IsBinaryOp(op) && WellFormed(l) && WellFormed(r)
    case MembershipExpr(x, op, cs) =>
      IsMembershipOp(op) && WellFormed(x) && |cs| > 0 && forall c <- cs :: ChoiceWellFormed(c)
    case Aggregate(anc, content) => OptWellFormed(anc) && ContentWellFormed(content)
    case CallExpr(n, s) => WellFormed(n) && CallSuffixWellFormed(s)
    case AccessDeref => true
    case DiamondExpr => true
    case IfExpr(c, t, elsifs, el) =>
      WellFormed(c) && WellFormed(t) && OptWellFormed(el)
      && forall part <- elsifs :: WellFormed(part.condExpr) && WellFormed(part.thenExpr)
    case CaseExpr(x, cases) =>
      WellFormed(x) && |cases| > 0 && forall alt <- cases :: CaseAltWellFormed(alt)
    case QuantifiedExpr(_, spec, x) => LoopSpecWellFormed(spec) && WellFormed(x)
    case Allocator(sub, x) => OptWellFormed(sub) && WellFormed(x)
    case QualExpr(p, s) => WellFormed(p) && WellFormed(s)
    case AttributeRef(p, a, args) =>
      WellFormed(p) && (a.Attribute? || a.Identifier?) && LeafWellFormed(a)
      && (args.Some? ==> CallSuffixWellFormed(args.value))
    case RaiseExpression(n, m) => OptWellFormed(n) && OptWellFormed(m)
    case Prefix(p, s) => WellFormed(p) && WellFormed(s)
    case NamePrefix(p, s) => IsBaseName(p) && IsBaseName(s) && WellFormed(p) && WellFormed(s)
    case _ => LeafWellFormed(e)
  }

  predicate ChoiceWellFormed(c: Choice) {
    c.ChoiceExpr? ==> WellFormed(c.expr)
  }

  predicate CallSuffixWellFormed(s: CallSuffix) {
    match s
    case RangeSuffix(r) => r.BinOp? && r.op == EllipsisOp && WellFormed(r)
    case ParamList(ps) => |ps| > 0 && forall p <- ps :: ParamAssocWellFormed(p)
  }

  predicate ParamAssocWellFormed(p: ParamAssoc) {
    && (p.designator.Some? ==> DesignatorWellFormed(p.designator.value))
    && WellFormed(p.expr)
  }

  /** A parameter designator is an identifier, a string literal or `others`. */
  predicate DesignatorWellFormed(c: Choice) {
    c.ChoiceExpr? ==> (c.expr.Identifier? || c.expr.StringLiteral?) && LeafWellFormed(c.expr)
  }

  predicate FieldWellFormed(f: AggregateField) {
    match f
    case AggregateMember(cs) => |cs| > 0 && forall c <- cs :: ChoiceWellFormed(c)
    case FieldChoice(c) => ChoiceWellFormed(c)
  }

  predicate AssocWellFormed(a: AggregateAssoc) {
    (a.designator.Some? ==> FieldWellFormed(a.designator.value)) && WellFormed(a.expr)
  }

  predicate ContentWellFormed(c: AbstractAggregateContent) {
    c.AggregateContent? ==> |c.fields| > 0 && forall a <- c.fields :: AssocWellFormed(a)
  }

  predicate CaseAltWellFormed(alt: CaseExprAlternative) {
    |alt.choices| > 0 && (forall c <- alt.choices :: ChoiceWellFormed(c)) && WellFormed(alt.expr)
  }

  predicate LoopSpecWellFormed(spec: ForLoopSpec) {
    spec.id.Identifier? && LeafWellFormed(spec.id) && WellFormed(spec.iterExpr)
  }
}
