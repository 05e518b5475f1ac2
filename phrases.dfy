/** A printer for the compound phrases of the grammar (exprs.py:265-363):
    names with their postfix extensions, call suffixes and parameter
    associations, aggregates, allocators, raise expressions and the three
    conditional expressions.

    The holes of a phrase (an argument, a bound, a condition, an
    association's value, ...) are the operator expressions of module
    RoundTrip, printed by its printer. Module PhraseRoundTrip proves that
    parsing what this printer prints gives the phrase back: that is where
    the order of each rule's alternatives and the way its parts are
    delimited are stated for every input this printer can produce. */
module Phrases {
  import opened Tokens
  import opened Ast
  import opened RoundTrip

  // ---------------------------------------------------------------------
  // Tokens the operator printer never prints. Inside a phrase each of
  // them ends the expression before it.

  predicate Separator(t: Token) {
    t == Sym(Arrow) || t == Sym(Comma) || t == Sym(KwWith) || t == Sym(KwRecord)
  }

  lemma {:induction false} ShowHasNoSeparator(e: Expr, lvl: Level)
    requires Printable(e)
    ensures forall t <- Show(e, lvl) :: !Separator(t)
    decreases e, if Fits(e, lvl) then 1 else 2
  {
    if Fits(e, lvl) {
      ShowFittingHasNoSeparator(e, lvl);
    } else {
      ShowHasNoSeparator(e, LE);
    }
  }

  lemma {:induction false} ShowFittingHasNoSeparator(e: Expr, lvl: Level)
    requires Printable(e) && Fits(e, lvl)
    ensures forall t <- ShowFitting(e, lvl) :: !Separator(t)
    decreases e, 0
  {
    match e
    case UnOp(op, x) =>
      ShowHasNoSeparator(x, UnaryOperandLevel(op));
    case BinOp(l, op, r) =>
      ShowHasNoSeparator(l, LeftLevel(op, lvl));
      ShowHasNoSeparator(r, RightLevel(op, lvl));
    case MembershipExpr(x, op, cs) =>
      ShowHasNoSeparator(x, LS);
      ShowChoicesHaveNoSeparator(cs);
    case _ =>
  }

  lemma {:induction false} ShowChoiceHasNoSeparator(c: Choice)
    requires PrintableChoice(c)
    ensures forall t <- ShowChoice(c) :: !Separator(t)
    decreases c, 0
  {
    if c.ChoiceExpr? {
      if IsRange(c.expr) {
        ShowHasNoSeparator(c.expr.left, LC);
        ShowHasNoSeparator(c.expr.right, LC);
      } else {
        ShowHasNoSeparator(c.expr, LC);
      }
    }
  }

  lemma {:induction false} ShowChoicesHaveNoSeparator(cs: seq<Choice>)
    requires |cs| > 0 && forall c <- cs :: PrintableChoice(c)
    ensures forall t <- ShowChoices(cs) :: !Separator(t)
    decreases cs, 1
  {
    ShowChoiceHasNoSeparator(cs[0]);
    if |cs| > 1 {
      ShowChoicesHaveNoSeparator(cs[1..]);
    }
  }

  // ---------------------------------------------------------------------
  // Values and ranges

  /** The value of an association: `<>` or an operator expression. */
  predicate PrintableValue(v: Expr) {
    v.DiamondExpr? || Printable(v)
  }

  function ShowValue(v: Expr): seq<Token>
    requires PrintableValue(v)
  {
    if v.DiamondExpr? then [Sym(Diamond)] else Show(v, LE)
  }

  /** A discrete range `lo .. hi`; each bound is shown as an item of a
      choice list, so that a membership bound is parenthesized. */
  predicate PrintableRange(r: Expr) {
    IsRange(r) && Printable(r.left) && Printable(r.right)
  }

  function ShowRange(r: Expr): seq<Token>
    requires PrintableRange(r)
  {
    Show(r.left, LC) + [Sym(DotDot)] + Show(r.right, LC)
  }

  // ---------------------------------------------------------------------
  // Call suffixes (exprs.py:343-353)

  /** A parameter designator: an identifier, a string literal or `others`. */
  predicate PrintableDesignator(d: Choice) {
    || d.OthersDesignator?
    || (d.expr.Identifier? && d.expr.tok.IdentTok?)
    || (d.expr.StringLiteral? && d.expr.tok.StringTok?)
  }

  function DesignatorToken(d: Choice): Token
    requires PrintableDesignator(d)
  {
    if d.OthersDesignator? then Sym(KwOthers) else d.expr.tok
  }

  predicate PrintableParam(a: ParamAssoc) {
    (a.designator.Some? ==> PrintableDesignator(a.designator.value)) && PrintableValue(a.expr)
  }

  function ShowParam(a: ParamAssoc): seq<Token>
    requires PrintableParam(a)
  {
    (if a.designator.Some? then [DesignatorToken(a.designator.value), Sym(Arrow)] else [])
    + ShowValue(a.expr)
  }

  predicate PrintableParams(ps: seq<ParamAssoc>) {
    |ps| > 0 && forall a <- ps :: PrintableParam(a)
  }

  /** Associations separated by `,`. */
  function ShowParams(ps: seq<ParamAssoc>): seq<Token>
    requires PrintableParams(ps)
  {
    if |ps| == 1 then ShowParam(ps[0]) else ShowParam(ps[0]) + [Sym(Comma)] + ShowParams(ps[1..])
  }

  predicate PrintableSuffix(s: CallSuffix) {
    match s
    case RangeSuffix(r) => PrintableRange(r)
    case ParamList(ps) => PrintableParams(ps)
  }

  function ShowSuffix(s: CallSuffix): seq<Token>
    requires PrintableSuffix(s)
  {
    match s
    case RangeSuffix(r) => ShowRange(r)
    case ParamList(ps) => ShowParams(ps)
  }

  /** `(` call_suffix `)`. */
  function ShowArguments(s: CallSuffix): seq<Token>
    requires PrintableSuffix(s)
  {
    [Sym(LParen)] + ShowSuffix(s) + [Sym(RParen)]
  }

  // ---------------------------------------------------------------------
  // Aggregates (exprs.py:317-338)

  /** An association: an optional choice list with `=>`, then a value. The
      field of a designated association is always a choice list: that is
      the alternative aggregate_field tries first, and it takes every
      expression and `others`. */
  predicate PrintableAssoc(a: AggregateAssoc) {
    && (a.designator.Some? ==>
          && a.designator.value.AggregateMember?
          && |a.designator.value.choiceList| > 0
          && forall c <- a.designator.value.choiceList :: PrintableChoice(c))
    && PrintableValue(a.expr)
  }

  function ShowAssoc(a: AggregateAssoc): seq<Token>
    requires PrintableAssoc(a)
  {
    (if a.designator.Some? then ShowChoices(a.designator.value.choiceList) + [Sym(Arrow)] else [])
    + ShowValue(a.expr)
  }

  predicate PrintableAssocs(fs: seq<AggregateAssoc>) {
    |fs| > 0 && forall a <- fs :: PrintableAssoc(a)
  }

  function ShowAssocs(fs: seq<AggregateAssoc>): seq<Token>
    requires PrintableAssocs(fs)
  {
    if |fs| == 1 then ShowAssoc(fs[0]) else ShowAssoc(fs[0]) + [Sym(Comma)] + ShowAssocs(fs[1..])
  }

  predicate PrintableContent(c: AbstractAggregateContent) {
    c.AggregateContent? ==> PrintableAssocs(c.fields)
  }

  function ShowContent(c: AbstractAggregateContent): seq<Token>
    requires PrintableContent(c)
  {
    if c.NullRecordContent? then [Sym(KwNull), Sym(KwRecord)] else ShowAssocs(c.fields)
  }

  predicate PrintableAggregate(g: Expr) {
    && g.Aggregate?
    && (g.ancestorExpr.Some? ==> Printable(g.ancestorExpr.value))
    && PrintableContent(g.assocs)
  }

  function ShowAncestor(anc: Option<Expr>): seq<Token>
    requires anc.Some? ==> Printable(anc.value)
  {
    if anc.None? then [] else Show(anc.value, LE) + [Sym(KwWith)]
  }

  /** `(` [ancestor `with`] content `)`. */
  function ShowAggregate(g: Expr): seq<Token>
    requires PrintableAggregate(g)
  {
    [Sym(LParen)] + ShowAncestor(g.ancestorExpr) + ShowContent(g.assocs) + [Sym(RParen)]
  }

  /** Content that is one positional expression. */
  predicate OnePositional(c: AbstractAggregateContent) {
    && c.AggregateContent? && |c.fields| == 1 && c.fields[0].designator.None?
    && !c.fields[0].expr.DiamondExpr?
  }

  /** An aggregate that prints as a parenthesized expression `(e)`. */
  predicate SinglePositional(g: Expr) {
    g.Aggregate? && g.ancestorExpr.None? && OnePositional(g.assocs)
  }

  // ---------------------------------------------------------------------
  // Names (exprs.py:340-363)

  /** The nodes direct_name builds. */
  predicate DirectNameLeaf(d: Expr) {
    match d
    case Identifier(t) => t.IdentTok?
    case StringLiteral(t) => t.StringTok?
    case CharLiteral(t) => t.CharTok?
    case AccessDeref => true
    case Attribute(t) => IsAttributeKeyword(t)
    case _ => false
  }

  function DirectNameToken(d: Expr): (t: Token)
    requires DirectNameLeaf(d)
    ensures IsDirectNameStart(t)
  {
    if d.AccessDeref? then Sym(KwAll) else d.tok
  }

  /** The nodes the attribute rule builds. */
  predicate AttributeDesignator(a: Expr) {
    (a.Attribute? && IsAttributeKeyword(a.tok)) || (a.Identifier? && a.tok.IdentTok?)
  }

  /** The operand of a qualified expression: an operator expression in
      parentheses, or an aggregate that does not print as one. */
  predicate PrintableOperand(o: Expr) {
    Printable(o) || (PrintableAggregate(o) && !SinglePositional(o))
  }

  function ShowOperand(o: Expr): seq<Token>
    requires PrintableOperand(o)
  {
    if Printable(o) then [Sym(LParen)] + Show(o, LE) + [Sym(RParen)] else ShowAggregate(o)
  }

  /** A call, a selection, an attribute reference or a qualified
      expression: a name that extends a shorter one, its stem. */
  predicate IsExtension(n: Expr) {
    n.CallExpr? || n.Prefix? || n.AttributeRef? || n.QualExpr?
  }

  function Stem(n: Expr): (m: Expr)
    requires IsExtension(n)
    ensures m < n
  {
    if n.CallExpr? then n.name else n.prefix
  }

  /** The stem of an extension can be printed, and so can what the
      extension adds to it. An attribute reference without arguments is
      not the stem of a call: its `(` would be read as the attribute's
      arguments. */
  predicate PrintableTail(n: Expr)
    requires IsExtension(n)
    decreases n, 0
  {
    && PrintableName(Stem(n))
    && match n
       case CallExpr(m, s) => !(m.AttributeRef? && m.args.None?) && PrintableSuffix(s)
       case Prefix(_, d) => DirectNameLeaf(d)
       case AttributeRef(_, a, args) => AttributeDesignator(a) && (args.Some? ==> PrintableSuffix(args.value))
       case QualExpr(_, o) => PrintableOperand(o)
  }

  /** The tokens an extension adds after its stem: the arguments of a
      call, `.` and a direct name, `'` and an attribute designator with its
      arguments, `'` and the operand; empty for a node that is not an
      extension that can be printed. */
  function Tail(n: Expr): seq<Token>
  {
    if !(IsExtension(n) && PrintableTail(n)) then []
    else match n
      case CallExpr(_, s) => ShowArguments(s)
      case Prefix(_, d) => [Sym(Dot), DirectNameToken(d)]
      case AttributeRef(_, a, args) => [Sym(Tick), a.tok] + (if args.Some? then ShowArguments(args.value) else [])
      case QualExpr(_, o) => [Sym(Tick)] + ShowOperand(o)
  }

  /** A direct name followed by extensions. */
  predicate PrintableName(n: Expr)
    decreases n, 1
  {
    if IsExtension(n) then PrintableTail(n) else DirectNameLeaf(n)
  }

  /** The tokens of a name: its direct name, then the tail of each
      extension in turn; empty where no direct name can be reached. */
  function ShowName(n: Expr): seq<Token>
  {
    if IsExtension(n) then ShowName(Stem(n)) + Tail(n)
    else if DirectNameLeaf(n) then [DirectNameToken(n)] else []
  }

  /** The direct name a name starts with. */
  function Root(n: Expr): (r: Expr)
    ensures PrintableName(n) ==> DirectNameLeaf(r) && |ShowName(n)| > 0 && ShowName(n)[0] == DirectNameToken(r)
  {
    if IsExtension(n) then
      assert PrintableName(n) ==> PrintableTail(n);
      Root(Stem(n))
    else n
  }

  // ---------------------------------------------------------------------
  // Allocators and raise expressions (exprs.py:265-267, 298-301)

  predicate PrintableAllocator(e: Expr) {
    e.Allocator? && (e.subpool.Some? ==> PrintableName(e.subpool.value)) && PrintableName(e.expr)
  }

  /** `new` [`(` subpool `)`] name. */
  function ShowAllocator(e: Expr): seq<Token>
    requires e.Allocator?
  {
    [Sym(KwNew)]
    + (if e.subpool.Some? then [Sym(LParen)] + ShowName(e.subpool.value) + [Sym(RParen)] else [])
    + ShowName(e.expr)
  }

  /** A message needs an exception name: the bare alternative has neither. */
  predicate PrintableRaise(e: Expr) {
    && e.RaiseExpression?
    && (e.exceptionName.Some? ==> PrintableName(e.exceptionName.value))
    && (e.errorMessage.Some? ==> e.exceptionName.Some? && Printable(e.errorMessage.value))
  }

  function ShowMessage(m: Option<Expr>): seq<Token>
    requires m.Some? ==> Printable(m.value)
  {
    if m.None? then [] else [Sym(KwWith)] + Show(m.value, LE)
  }

  /** `raise` [name [`with` message]]. */
  function ShowRaise(e: Expr): seq<Token>
    requires PrintableRaise(e)
  {
    [Sym(KwRaise)]
    + (if e.exceptionName.Some? then ShowName(e.exceptionName.value) + ShowMessage(e.errorMessage) else [])
  }

  // ---------------------------------------------------------------------
  // Conditional expressions (exprs.py:276-311)

  predicate PrintableElsif(part: ElsifExprPart) {
    Printable(part.condExpr) && Printable(part.thenExpr)
  }

  function ShowElsif(part: ElsifExprPart): seq<Token>
    requires PrintableElsif(part)
  {
    [Sym(KwElsif)] + Show(part.condExpr, LE) + [Sym(KwThen)] + Show(part.thenExpr, LE)
  }

  function ShowElsifs(ps: seq<ElsifExprPart>): seq<Token>
    requires forall part <- ps :: PrintableElsif(part)
  {
    if |ps| == 0 then [] else ShowElsif(ps[0]) + ShowElsifs(ps[1..])
  }

  function ShowElse(el: Option<Expr>): seq<Token>
    requires el.Some? ==> Printable(el.value)
  {
    if el.None? then [] else [Sym(KwElse)] + Show(el.value, LE)
  }

  predicate PrintableIf(e: Expr) {
    && e.IfExpr? && Printable(e.condExpr) && Printable(e.thenExpr)
    && (forall part <- e.elsifList :: PrintableElsif(part))
    && (e.elseExpr.Some? ==> Printable(e.elseExpr.value))
  }

  /** `if` c `then` t {`elsif` c `then` t} [`else` x]. */
  function ShowIf(e: Expr): seq<Token>
    requires PrintableIf(e)
  {
    [Sym(KwIf)] + Show(e.condExpr, LE) + [Sym(KwThen)] + Show(e.thenExpr, LE)
    + ShowElsifs(e.elsifList) + ShowElse(e.elseExpr)
  }

  predicate PrintableAlt(a: CaseExprAlternative) {
    |a.choices| > 0 && (forall c <- a.choices :: PrintableChoice(c)) && Printable(a.expr)
  }

  /** `when` choices `=>` expression. */
  function ShowAlt(a: CaseExprAlternative): seq<Token>
    requires PrintableAlt(a)
  {
    [Sym(KwWhen)] + ShowChoices(a.choices) + [Sym(Arrow)] + Show(a.expr, LE)
  }

  predicate PrintableAlts(alts: seq<CaseExprAlternative>) {
    |alts| > 0 && forall a <- alts :: PrintableAlt(a)
  }

  function ShowAlts(alts: seq<CaseExprAlternative>): seq<Token>
    requires PrintableAlts(alts)
  {
    if |alts| == 1 then ShowAlt(alts[0]) else ShowAlt(alts[0]) + [Sym(Comma)] + ShowAlts(alts[1..])
  }

  predicate PrintableCase(e: Expr) {
    e.CaseExpr? && Printable(e.expr) && PrintableAlts(e.cases)
  }

  /** `case` selector `is` alternatives. */
  function ShowCase(e: Expr): seq<Token>
    requires PrintableCase(e)
  {
    [Sym(KwCase)] + Show(e.expr, LE) + [Sym(KwIs)] + ShowAlts(e.cases)
  }

  /** Whether the first token of `s` can start a name. */
  predicate LeadsWithName(s: seq<Token>) {
    |s| > 0 && IsDirectNameStart(s[0])
  }

  /** The source of an iteration: a name (the stand-in for a subtype), or a
      discrete range or an expression that does not start with a name. One
      that starts with a name is read as that name, the first alternative. */
  predicate PrintableSource(x: Expr) {
    || PrintableName(x)
    || (PrintableRange(x) && !LeadsWithName(Show(x.left, LC)))
    || (Printable(x) && !IsRange(x) && !LeadsWithName(Show(x, LE)))
  }

  function ShowSource(x: Expr): seq<Token>
    requires PrintableSource(x)
  {
    if PrintableName(x) then ShowName(x) else if IsRange(x) then ShowRange(x) else Show(x, LE)
  }

  function IterToken(t: IterType): Token {
    match t
    case InIter => Sym(KwIn)
    case OfIter => Sym(KwOf)
  }

  function QuantifierToken(q: Quantifier): Token {
    match q
    case AllItems => Sym(KwAll)
    case SomeItems => Sym(KwSome)
  }

  predicate PrintableSpec(spec: ForLoopSpec) {
    spec.id.Identifier? && spec.id.tok.IdentTok? && PrintableSource(spec.iterExpr)
  }

  /** identifier `in`/`of` [`reverse`] source. */
  function ShowSpec(spec: ForLoopSpec): seq<Token>
    requires PrintableSpec(spec)
  {
    [spec.id.tok, IterToken(spec.loopType)] + (if spec.isReverse then [Sym(KwReverse)] else [])
    + ShowSource(spec.iterExpr)
  }

  predicate PrintableQuantified(e: Expr) {
    e.QuantifiedExpr? && PrintableSpec(e.loopSpec) && Printable(e.expr)
  }

  /** `for` `all`/`some` spec `=>` predicate. */
  function ShowQuantified(e: Expr): seq<Token>
    requires PrintableQuantified(e)
  {
    [Sym(KwFor), QuantifierToken(e.quantifier)] + ShowSpec(e.loopSpec) + [Sym(Arrow)] + Show(e.expr, LE)
  }

  // ---------------------------------------------------------------------
  // Every phrase a primary can be

  predicate PrintableConditional(e: Expr) {
    PrintableIf(e) || PrintableCase(e) || PrintableQuantified(e)
  }

  function ShowConditional(e: Expr): seq<Token>
    requires PrintableConditional(e)
  {
    if e.IfExpr? then ShowIf(e) else if e.CaseExpr? then ShowCase(e) else ShowQuantified(e)
  }

  /** A compound primary: a name, an allocator, a conditional or raise
      expression, or an aggregate that does not print as `(e)`. */
  predicate PrintablePhrase(x: Expr) {
    || PrintableName(x) || PrintableAllocator(x) || PrintableConditional(x) || PrintableRaise(x)
    || (PrintableAggregate(x) && !SinglePositional(x))
  }

  function ShowPhrase(x: Expr): seq<Token>
    requires PrintablePhrase(x)
  {
    if PrintableName(x) then ShowName(x)
    else if x.Allocator? then ShowAllocator(x)
    else if x.RaiseExpression? then ShowRaise(x)
    else if x.Aggregate? then ShowAggregate(x)
    else ShowConditional(x)
  }
}
