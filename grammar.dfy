/** The expression and name rules of the Ada grammar (exprs.py:257-459).

    Every rule is a function from a token position to `Parsed<T>`: either
    `NoMatch`, or the node built and the position after the last token it
    consumed. The langkit combinators become ordinary control flow:
    - `Or(a, b, ...)` tries the alternatives in order and returns the first
      that matches;
    - `Row(a, b, ...)` fails as soon as one part fails;
    - `Opt(x)` consumes nothing when `x` fails;
    - `List(x, sep)` matches one or more items; a separator that is not
      followed by an item is left unconsumed; with `empty_valid` the list
      may be empty.
    Where the alternatives of an `Or` start with the same sub-rule (as in
    `Or(Row(term, op, simple_expr_2), term)`), the sub-rule is parsed once:
    rules are deterministic, so this is the same result.

    Termination: each rule decreases `(|ts| - pos, rank)`. A rule calls
    another at its own position only when that rule has a lower rank; every
    other call is made after at least one token was consumed, which every
    rule guarantees on success (`Advances`). */
module Grammar {
  import opened Tokens
  import opened Ast
  import opened NameResolution

  datatype Parsed<+T> = NoMatch | Match(node: T, next: nat)

  /** A successful parse consumed at least one token and stayed in bounds. */
  predicate Advances<T>(ts: seq<Token>, pos: nat, r: Parsed<T>) {
    r.Match? ==> pos < r.next <= |ts|
  }

  predicate IsSym(ts: seq<Token>, pos: nat, s: Symbol) {
    pos < |ts| && ts[pos] == Sym(s)
  }

  // =====================================================================
  // Single-token rules (exprs.py:258-263, 313, 315, 365)

  function ParseIdentifier(ts: seq<Token>, pos: nat): (r: Parsed<Expr>)
    requires pos <= |ts|
    ensures r.Match? <==> pos < |ts| && ts[pos].IdentTok?
    ensures r.Match? ==> r == Match(Identifier(ts[pos]), pos + 1)
  {
    if pos < |ts| && ts[pos].IdentTok? then Match(Identifier(ts[pos]), pos + 1) else NoMatch
  }

  function ParseEnumIdentifier(ts: seq<Token>, pos: nat): (r: Parsed<Expr>)
    requires pos <= |ts|
    ensures r.Match? <==> pos < |ts| && ts[pos].IdentTok?
    ensures r.Match? ==> r == Match(EnumIdentifier(ts[pos]), pos + 1)
  {
    if pos < |ts| && ts[pos].IdentTok? then Match(EnumIdentifier(ts[pos]), pos + 1) else NoMatch
  }

  function ParseCharLiteral(ts: seq<Token>, pos: nat): (r: Parsed<Expr>)
    requires pos <= |ts|
    ensures r.Match? <==> pos < |ts| && ts[pos].CharTok?
    ensures r.Match? ==> r == Match(CharLiteral(ts[pos]), pos + 1)
  {
    if pos < |ts| && ts[pos].CharTok? then Match(CharLiteral(ts[pos]), pos + 1) else NoMatch
  }

  function ParseStringLiteral(ts: seq<Token>, pos: nat): (r: Parsed<Expr>)
    requires pos <= |ts|
    ensures r.Match? <==> pos < |ts| && ts[pos].StringTok?
    ensures r.Match? ==> r == Match(StringLiteral(ts[pos]), pos + 1)
  {
    if pos < |ts| && ts[pos].StringTok? then Match(StringLiteral(ts[pos]), pos + 1) else NoMatch
  }

  function ParseNumLiteral(ts: seq<Token>, pos: nat): (r: Parsed<Expr>)
    requires pos <= |ts|
    ensures r.Match? <==> pos < |ts| && ts[pos].NumberTok?
    ensures r.Match? ==> r == Match(NumLiteral(ts[pos]), pos + 1)
  {
    if pos < |ts| && ts[pos].NumberTok? then Match(NumLiteral(ts[pos]), pos + 1) else NoMatch
  }

  function ParseNullLiteral(ts: seq<Token>, pos: nat): (r: Parsed<Expr>)
    requires pos <= |ts|
    ensures r.Match? <==> IsSym(ts, pos, KwNull)
    ensures r.Match? ==> r == Match(NullLiteral(ts[pos]), pos + 1)
  {
    if IsSym(ts, pos, KwNull) then Match(NullLiteral(ts[pos]), pos + 1) else NoMatch
  }

  function ParseDiamondExpr(ts: seq<Token>, pos: nat): (r: Parsed<Expr>)
    requires pos <= |ts|
    ensures r.Match? <==> IsSym(ts, pos, Diamond)
    ensures r.Match? ==> r == Match(DiamondExpr, pos + 1)
  {
    if IsSym(ts, pos, Diamond) then Match(DiamondExpr, pos + 1) else NoMatch
  }

  function ParseOthersDesignator(ts: seq<Token>, pos: nat): (r: Parsed<Choice>)
    requires pos <= |ts|
    ensures r.Match? <==> IsSym(ts, pos, KwOthers)
    ensures r.Match? ==> r == Match(OthersDesignator, pos + 1)
  {
    if IsSym(ts, pos, KwOthers) then Match(OthersDesignator, pos + 1) else NoMatch
  }

  function ParseAccessDeref(ts: seq<Token>, pos: nat): (r: Parsed<Expr>)
    requires pos <= |ts|
    ensures r.Match? <==> IsSym(ts, pos, KwAll)
    ensures r.Match? ==> r == Match(AccessDeref, pos + 1)
  {
    if IsSym(ts, pos, KwAll) then Match(AccessDeref, pos + 1) else NoMatch
  }

  /** attribute (exprs.py:283-286): one of five keywords as an Attribute
      node, or else an identifier. */
  function ParseAttribute(ts: seq<Token>, pos: nat): (r: Parsed<Expr>)
    requires pos <= |ts|
    ensures r.Match? <==> pos < |ts| && (IsAttributeKeyword(ts[pos]) || ts[pos].IdentTok?)
    ensures r.Match? ==> r.next == pos + 1 && WellFormed(r.node)
    ensures r.Match? ==> r.node == if IsAttributeKeyword(ts[pos]) then Attribute(ts[pos]) else Identifier(ts[pos])
  {
    if pos < |ts| && IsAttributeKeyword(ts[pos]) then Match(Attribute(ts[pos]), pos + 1)
    else ParseIdentifier(ts, pos)
  }

  /** direct_name (exprs.py:340-341). */
  function ParseDirectName(ts: seq<Token>, pos: nat): (r: Parsed<Expr>)
    requires pos <= |ts|
    ensures r.Match? <==> pos < |ts| && IsDirectNameStart(ts[pos])
    ensures r.Match? ==> r.next == pos + 1 && WellFormed(r.node)
    ensures r.Match? && ts[pos].IdentTok? ==> r.node == Identifier(ts[pos])
    ensures r.Match? && ts[pos].StringTok? ==> r.node == StringLiteral(ts[pos])
    ensures r.Match? && ts[pos].CharTok? ==> r.node == CharLiteral(ts[pos])
    ensures r.Match? && ts[pos] == Sym(KwAll) ==> r.node == AccessDeref
    ensures r.Match? && IsAttributeKeyword(ts[pos]) ==> r.node == Attribute(ts[pos])
  {
    var id := ParseIdentifier(ts, pos);
    if id.Match? then id else
    var str := ParseStringLiteral(ts, pos);
    if str.Match? then str else
    var chr := ParseCharLiteral(ts, pos);
    if chr.Match? then chr else
    var deref := ParseAccessDeref(ts, pos);
    if deref.Match? then deref else
    ParseAttribute(ts, pos)
  }

  // =====================================================================
  // Operator tables: the `Enum` alternatives of each precedence level.

  /** exprs.py:391-394 */
  function MultiplyingOp(t: Token): (r: Option<Op>)
    ensures r.Some? ==> IsMultiplyingOp(r.value)
    ensures r.Some? <==> (t == Sym(Star) || t == Sym(Slash) || t == Sym(KwMod) || t == Sym(KwRem))
  {
    if t == Sym(Star) then Some(MultOp)
    else if t == Sym(Slash) then Some(DivOp)
    else if t == Sym(KwMod) then Some(ModOp)
    else if t == Sym(KwRem) then Some(RemOp)
    else None
  }

  /** exprs.py:399-400 */
  function UnaryAddingOp(t: Token): (r: Option<Op>)
    ensures r.Some? ==> IsUnaryAddingOp(r.value)
    ensures r.Some? <==> (t == Sym(PlusSign) || t == Sym(MinusSign))
  {
    if t == Sym(PlusSign) then Some(PlusOp)
    else if t == Sym(MinusSign) then Some(MinusOp)
    else None
  }

  /** exprs.py:406-408 and 414-416 */
  function AddingOp(t: Token): (r: Option<Op>)
    ensures r.Some? ==> IsAddingOp(r.value)
    ensures r.Some? <==> (t == Sym(PlusSign) || t == Sym(MinusSign) || t == Sym(Ampersand))
  {
    if t == Sym(PlusSign) then Some(PlusOp)
    else if t == Sym(MinusSign) then Some(MinusOp)
    else if t == Sym(Ampersand) then Some(BinAndOp)
    else None
  }

  /** exprs.py:382 */
  function HighestPrecedenceOp(t: Token): (r: Option<Op>)
    ensures r.Some? ==> IsHighestPrecedenceOp(r.value)
    ensures r.Some? <==> (t == Sym(KwAbs) || t == Sym(KwNot))
  {
    if t == Sym(KwAbs) then Some(AbsOp)
    else if t == Sym(KwNot) then Some(NotOp)
    else None
  }

  /** exprs.py:445-447 */
  function RelationalOp(t: Token): (r: Option<Op>)
    ensures r.Some? ==> IsRelationalOp(r.value)
    ensures r.Some? <==> (t == Sym(Equal) || t == Sym(NotEqual) || t == Sym(Less) || t == Sym(LessEqual) || t == Sym(Greater) || t == Sym(GreaterEqual))
  {
    if t == Sym(Equal) then Some(EqOp)
    else if t == Sym(NotEqual) then Some(NeqOp)
    else if t == Sym(Less) then Some(LtOp)
    else if t == Sym(LessEqual) then Some(LteOp)
    else if t == Sym(Greater) then Some(GtOp)
    else if t == Sym(GreaterEqual) then Some(GteOp)
    else None
  }

  /** exprs.py:271 */
  function IterTypeOf(t: Token): (r: Option<IterType>)
    ensures r.Some? <==> (t == Sym(KwIn) || t == Sym(KwOf))
    ensures r == Some(InIter) <==> t == Sym(KwIn)
  {
    if t == Sym(KwIn) then Some(InIter)
    else if t == Sym(KwOf) then Some(OfIter)
    else None
  }

  /** exprs.py:277-278 */
  function QuantifierOf(t: Token): (r: Option<Quantifier>)
    ensures r.Some? <==> (t == Sym(KwAll) || t == Sym(KwSome))
    ensures r == Some(AllItems) <==> t == Sym(KwAll)
  {
    if t == Sym(KwAll) then Some(AllItems)
    else if t == Sym(KwSome) then Some(SomeItems)
    else None
  }

  /** boolean_op (exprs.py:421-425): the two-token operators `and then` and
      `or else` are tried before `and` and `or`. */
  function ParseBooleanOp(ts: seq<Token>, pos: nat): (r: Parsed<Op>)
    requires pos <= |ts|
    ensures Advances(ts, pos, r)
    ensures r.Match? <==> IsSym(ts, pos, KwXor) || IsSym(ts, pos, KwAnd) || IsSym(ts, pos, KwOr)
    ensures r.Match? ==> IsBooleanOp(r.node)
    ensures IsSym(ts, pos, KwAnd) && IsSym(ts, pos + 1, KwThen) ==> r == Match(AndThenOp, pos + 2)
    ensures IsSym(ts, pos, KwAnd) && !IsSym(ts, pos + 1, KwThen) ==> r == Match(AndOp, pos + 1)
    ensures IsSym(ts, pos, KwOr) && IsSym(ts, pos + 1, KwElse) ==> r == Match(OrElseOp, pos + 2)
    ensures IsSym(ts, pos, KwOr) && !IsSym(ts, pos + 1, KwElse) ==> r == Match(OrOp, pos + 1)
    ensures IsSym(ts, pos, KwXor) ==> r == Match(XorOp, pos + 1)
  {
    if IsSym(ts, pos, KwXor) then Match(XorOp, pos + 1)
    else if IsSym(ts, pos, KwAnd) && IsSym(ts, pos + 1, KwThen) then Match(AndThenOp, pos + 2)
    else if IsSym(ts, pos, KwAnd) then Match(AndOp, pos + 1)
    else if IsSym(ts, pos, KwOr) && IsSym(ts, pos + 1, KwElse) then Match(OrElseOp, pos + 2)
    else if IsSym(ts, pos, KwOr) then Match(OrOp, pos + 1)
    else NoMatch
  }

  /** rel_op (exprs.py:438-441): `not in` is tried before `in`. */
  function ParseRelOp(ts: seq<Token>, pos: nat): (r: Parsed<Op>)
    requires pos <= |ts|
    ensures Advances(ts, pos, r)
    ensures r.Match? <==> IsSym(ts, pos, KwIn) || (IsSym(ts, pos, KwNot) && IsSym(ts, pos + 1, KwIn))
    ensures r.Match? ==> IsMembershipOp(r.node)
    ensures IsSym(ts, pos, KwNot) && IsSym(ts, pos + 1, KwIn) ==> r == Match(NotInOp, pos + 2)
    ensures IsSym(ts, pos, KwIn) ==> r == Match(InOp, pos + 1)
  {
    if IsSym(ts, pos, KwNot) && IsSym(ts, pos + 1, KwIn) then Match(NotInOp, pos + 2)
    else if IsSym(ts, pos, KwIn) then Match(InOp, pos + 1)
    else NoMatch
  }

  // =====================================================================
  // The precedence ladder (exprs.py:374-458)

  /** expression (exprs.py:455-458): right-recursive over boolean operators. */
  function ParseExpression(ts: seq<Token>, pos: nat): (r: Parsed<Expr>)
    requires pos <= |ts|
    ensures Advances(ts, pos, r)
    ensures r.Match? ==> IsExpressionStart(ts[pos])
    decreases |ts| - pos, 11
  {
    match ParseRelation(ts, pos)
    case NoMatch => NoMatch
    case Match(left, p) =>
      var op := ParseBooleanOp(ts, p);
      if op.NoMatch? then Match(left, p)
      else
        match ParseExpression(ts, op.next)
        case NoMatch => Match(left, p)
        case Match(right, q) => Match(BinOp(left, op.node, right), q)
  }

  /** relation (exprs.py:443-453): a comparison recursing into `relation`,
      a membership expression over a choice list, or a simple expression. */
  function ParseRelation(ts: seq<Token>, pos: nat): (r: Parsed<Expr>)
    requires pos <= |ts|
    ensures Advances(ts, pos, r)
    ensures r.Match? ==> IsExpressionStart(ts[pos])
    decreases |ts| - pos, 10
  {
    match ParseSimpleExpr(ts, pos)
    case NoMatch => NoMatch
    case Match(left, p) =>
      var cmp := if p < |ts| then RelationalOp(ts[p]) else None;
      var comparison: Parsed<Expr> :=
        if cmp.None? then NoMatch
        else (match ParseRelation(ts, p + 1)
              case NoMatch => NoMatch
              case Match(right, q) => Match(BinOp(left, cmp.value, right), q));
      if comparison.Match? then comparison
      else
        var mem := ParseRelOp(ts, p);
        var membership: Parsed<Expr> :=
          if mem.NoMatch? then NoMatch
          else (match ParseChoiceList(ts, mem.next)
                case NoMatch => NoMatch
                case Match(cs, q) => Match(MembershipExpr(left, mem.node, cs), q));
        if membership.Match? then membership else Match(left, p)
  }

  /** simple_expr (exprs.py:405-411): only its first term may be signed. */
  function ParseSimpleExpr(ts: seq<Token>, pos: nat): (r: Parsed<Expr>)
    requires pos <= |ts|
    ensures Advances(ts, pos, r)
    ensures r.Match? ==> IsExpressionStart(ts[pos])
    decreases |ts| - pos, 9
  {
    match ParseUnopTerm(ts, pos)
    case NoMatch => NoMatch
    case Match(left, p) =>
      var op := if p < |ts| then AddingOp(ts[p]) else None;
      if op.None? then Match(left, p)
      else
        match ParseSimpleExpr2(ts, p + 1)
        case NoMatch => Match(left, p)
        case Match(right, q) => Match(BinOp(left, op.value, right), q)
  }

  /** simple_expr_2 (exprs.py:413-419): unsigned terms joined by adding
      operators, right-recursive. */
  function ParseSimpleExpr2(ts: seq<Token>, pos: nat): (r: Parsed<Expr>)
    requires pos <= |ts|
    ensures Advances(ts, pos, r)
    ensures r.Match? ==> IsFactorStart(ts[pos])
    decreases |ts| - pos, 8
  {
    match ParseTerm(ts, pos)
    case NoMatch => NoMatch
    case Match(left, p) =>
      var op := if p < |ts| then AddingOp(ts[p]) else None;
      if op.None? then Match(left, p)
      else
        match ParseSimpleExpr2(ts, p + 1)
        case NoMatch => Match(left, p)
        case Match(right, q) => Match(BinOp(left, op.value, right), q)
  }

  /** unop_term (exprs.py:398-403): a leading `+` or `-` applies to a whole term. */
  function ParseUnopTerm(ts: seq<Token>, pos: nat): (r: Parsed<Expr>)
    requires pos <= |ts|
    ensures Advances(ts, pos, r)
    ensures r.Match? ==> IsExpressionStart(ts[pos])
    decreases |ts| - pos, 8
  {
    var op := if pos < |ts| then UnaryAddingOp(ts[pos]) else None;
    var signed: Parsed<Expr> :=
      if op.None? then NoMatch
      else (match ParseTerm(ts, pos + 1)
            case NoMatch => NoMatch
            case Match(t, q) => Match(UnOp(op.value, t), q));
    if signed.Match? then signed else ParseTerm(ts, pos)
  }

  /** term (exprs.py:390-396): factors joined by multiplying operators,
      right-recursive. */
  function ParseTerm(ts: seq<Token>, pos: nat): (r: Parsed<Expr>)
    requires pos <= |ts|
    ensures Advances(ts, pos, r)
    ensures r.Match? ==> IsFactorStart(ts[pos])
    decreases |ts| - pos, 7
  {
    match ParseFactor(ts, pos)
    case NoMatch => NoMatch
    case Match(left, p) =>
      var op := if p < |ts| then MultiplyingOp(ts[p]) else None;
      if op.None? then Match(left, p)
      else
        match ParseTerm(ts, p + 1)
        case NoMatch => Match(left, p)
        case Match(right, q) => Match(BinOp(left, op.value, right), q)
  }

  /** factor (exprs.py:381-388): `abs`/`not` applied to a primary, exactly
      two primaries joined by `**`, or a primary. */
  function ParseFactor(ts: seq<Token>, pos: nat): (r: Parsed<Expr>)
    requires pos <= |ts|
    ensures Advances(ts, pos, r)
    ensures r.Match? ==> IsFactorStart(ts[pos])
    decreases |ts| - pos, 6
  {
    var op := if pos < |ts| then HighestPrecedenceOp(ts[pos]) else None;
    var unary: Parsed<Expr> :=
      if op.None? then NoMatch
      else (match ParsePrimary(ts, pos + 1)
            case NoMatch => NoMatch
            case Match(p, q) => Match(UnOp(op.value, p), q));
    if unary.Match? then unary
    else
      match ParsePrimary(ts, pos)
      case NoMatch => NoMatch
      case Match(base, p) =>
        if !IsSym(ts, p, StarStar) then Match(base, p)
        else
          match ParsePrimary(ts, p + 1)
          case NoMatch => Match(base, p)
          case Match(exponent, q) => Match(BinOp(base, PowOp, exponent), q)
  }

  /** primary (exprs.py:374-379). */
  function ParsePrimary(ts: seq<Token>, pos: nat): (r: Parsed<Expr>)
    requires pos <= |ts|
    ensures Advances(ts, pos, r)
    ensures r.Match? ==> IsPrimaryStart(ts[pos])
    decreases |ts| - pos, 5
  {
    var num := ParseNumLiteral(ts, pos);
    if num.Match? then num else
    var nul := ParseNullLiteral(ts, pos);
    if nul.Match? then nul else
    var name := ParseName(ts, pos);
    if name.Match? then name else
    var alloc := ParseAllocator(ts, pos);
    if alloc.Match? then alloc else
    var cond := ParseConditionalExpression(ts, pos);
    if cond.Match? then cond else
    var raise := ParseRaiseExpression(ts, pos);
    if raise.Match? then raise else
    var paren := ParseParenthesized(ts, pos);
    if paren.Match? then paren else
    ParseAggregate(ts, pos)
  }

  /** The parenthesized alternative of primary (exprs.py:378). */
  function ParseParenthesized(ts: seq<Token>, pos: nat): (r: Parsed<Expr>)
    requires pos <= |ts|
    ensures Advances(ts, pos, r)
    ensures r.Match? ==> IsSym(ts, pos, LParen) && IsSym(ts, r.next - 1, RParen)
    decreases |ts| - pos, 1
  {
    if !IsSym(ts, pos, LParen) then NoMatch
    else
      var cond := ParseConditionalExpression(ts, pos + 1);
      var inner := if cond.Match? then cond else ParseExpression(ts, pos + 1);
      match inner
      case NoMatch => NoMatch
      case Match(e, p) => if IsSym(ts, p, RParen) then Match(e, p + 1) else NoMatch
  }

  /** discrete_range (exprs.py:427-428). */
  function ParseDiscreteRange(ts: seq<Token>, pos: nat): (r: Parsed<Expr>)
    requires pos <= |ts|
    ensures Advances(ts, pos, r)
    ensures r.Match? ==> r.node.BinOp? && r.node.op == EllipsisOp
    decreases |ts| - pos, 12
  {
    match ParseExpression(ts, pos)
    case NoMatch => NoMatch
    case Match(low, p) =>
      if !IsSym(ts, p, DotDot) then NoMatch
      else
        match ParseExpression(ts, p + 1)
        case NoMatch => NoMatch
        case Match(high, q) => Match(BinOp(low, EllipsisOp, high), q)
  }

  /** range_expression (exprs.py:430-432): an `Or` of the one alternative. */
  function ParseRangeExpression(ts: seq<Token>, pos: nat): (r: Parsed<Expr>)
    requires pos <= |ts|
    ensures Advances(ts, pos, r)
    ensures r.Match? ==> r.node.BinOp? && r.node.op == EllipsisOp
    decreases |ts| - pos, 13
  {
    ParseDiscreteRange(ts, pos)
  }

  /** choice (exprs.py:434). */
  function ParseChoice(ts: seq<Token>, pos: nat): (r: Parsed<Choice>)
    requires pos <= |ts|
    ensures Advances(ts, pos, r)
    decreases |ts| - pos, 14
  {
    var range := ParseRangeExpression(ts, pos);
    if range.Match? then Match(ChoiceExpr(range.node), range.next) else
    var e := ParseExpression(ts, pos);
    if e.Match? then Match(ChoiceExpr(e.node), e.next) else
    ParseOthersDesignator(ts, pos)
  }

  /** choice_list (exprs.py:436): choices separated by `|`. */
  function ParseChoiceList(ts: seq<Token>, pos: nat): (r: Parsed<seq<Choice>>)
    requires pos <= |ts|
    ensures Advances(ts, pos, r)
    ensures r.Match? ==> |r.node| > 0
    decreases |ts| - pos, 15
  {
    match ParseChoice(ts, pos)
    case NoMatch => NoMatch
    case Match(c, p) =>
      if !IsSym(ts, p, Bar) then Match([c], p)
      else
        match ParseChoiceList(ts, p + 1)
        case NoMatch => Match([c], p)
        case Match(cs, q) => Match([c] + cs, q)
  }

  // =====================================================================
  // Names (exprs.py:340-363)

  /** name (exprs.py:355-363). The rule is left-recursive; it is a
      direct_name followed by as many postfix extensions as match. */
  function ParseName(ts: seq<Token>, pos: nat): (r: Parsed<Expr>)
    requires pos <= |ts|
    ensures Advances(ts, pos, r)
    ensures r.Match? <==> pos < |ts| && IsDirectNameStart(ts[pos])
    decreases |ts| - pos, 4
  {
    match ParseDirectName(ts, pos)
    case NoMatch => NoMatch
    case Match(d, p) => ParseNameSuffixes(ts, d, p)
  }

  /** One postfix extension of `base` at `pos`, tried in the order of the
      rule's alternatives: call, `.` selection, `'` attribute reference,
      `'` qualified expression; then the extended name is extended again.
      When none applies, the name ends at `pos`. */
  function ParseNameSuffixes(ts: seq<Token>, base: Expr, pos: nat): (r: Parsed<Expr>)
    requires pos <= |ts|
    ensures r.Match? && pos <= r.next <= |ts|
    decreases |ts| - pos, 3
  {
    var call := ParseCallArguments(ts, pos);
    if call.Match? then ParseNameSuffixes(ts, CallExpr(base, call.node), call.next)
    else
    var selected: Parsed<Expr> := if IsSym(ts, pos, Dot) then ParseDirectName(ts, pos + 1) else NoMatch;
    if selected.Match? then ParseNameSuffixes(ts, Prefix(base, selected.node), selected.next)
    else
    var attr: Parsed<Expr> := if IsSym(ts, pos, Tick) then ParseAttribute(ts, pos + 1) else NoMatch;
    if attr.Match? then
      var args := ParseCallArguments(ts, attr.next);
      if args.Match? then ParseNameSuffixes(ts, AttributeRef(base, attr.node, Some(args.node)), args.next)
      else ParseNameSuffixes(ts, AttributeRef(base, attr.node, None), attr.next)
    else
    var qual: Parsed<Expr> := if IsSym(ts, pos, Tick) then ParseQualifiedOperand(ts, pos + 1) else NoMatch;
    if qual.Match? then ParseNameSuffixes(ts, QualExpr(base, qual.node), qual.next)
    else Match(base, pos)
  }

  /** `(` call_suffix `)`, as in a call and in the arguments of an
      attribute reference. */
  function ParseCallArguments(ts: seq<Token>, pos: nat): (r: Parsed<CallSuffix>)
    requires pos <= |ts|
    ensures Advances(ts, pos, r)
    ensures r.Match? ==> IsSym(ts, pos, LParen) && IsSym(ts, r.next - 1, RParen)
    decreases |ts| - pos, 1
  {
    if !IsSym(ts, pos, LParen) then NoMatch
    else
      match ParseCallSuffix(ts, pos + 1)
      case NoMatch => NoMatch
      case Match(s, p) => if IsSym(ts, p, RParen) then Match(s, p + 1) else NoMatch
  }

  /** The operand of a qualified expression after `'`: a parenthesized
      expression, else an aggregate (exprs.py:361). */
  function ParseQualifiedOperand(ts: seq<Token>, pos: nat): (r: Parsed<Expr>)
    requires pos <= |ts|
    ensures Advances(ts, pos, r)
    ensures r.Match? ==> IsSym(ts, pos, LParen)
    decreases |ts| - pos, 2
  {
    var paren: Parsed<Expr> :=
      if !IsSym(ts, pos, LParen) then NoMatch
      else (match ParseExpression(ts, pos + 1)
            case NoMatch => NoMatch
            case Match(e, p) => if IsSym(ts, p, RParen) then Match(e, p + 1) else NoMatch);
    if paren.Match? then paren else ParseAggregate(ts, pos)
  }

  /** call_suffix (exprs.py:349-353): a discrete range, else a list of
      parameter associations. */
  function ParseCallSuffix(ts: seq<Token>, pos: nat): (r: Parsed<CallSuffix>)
    requires pos <= |ts|
    ensures Advances(ts, pos, r)
    decreases |ts| - pos, 14
  {
    var range := ParseDiscreteRange(ts, pos);
    if range.Match? then Match(RangeSuffix(range.node), range.next)
    else
      match ParseParamAssocs(ts, pos)
      case NoMatch => NoMatch
      case Match(ps, q) => Match(ParamList(ps), q)
  }

  /** The `List(param_assoc, sep=",")` of call_suffix. */
  function ParseParamAssocs(ts: seq<Token>, pos: nat): (r: Parsed<seq<ParamAssoc>>)
    requires pos <= |ts|
    ensures Advances(ts, pos, r)
    ensures r.Match? ==> |r.node| > 0
    decreases |ts| - pos, 13
  {
    match ParseParamAssoc(ts, pos)
    case NoMatch => NoMatch
    case Match(a, p) =>
      if !IsSym(ts, p, Comma) then Match([a], p)
      else
        match ParseParamAssocs(ts, p + 1)
        case NoMatch => Match([a], p)
        case Match(rest, q) => Match([a] + rest, q)
  }

  /** The designator alternatives of param_assoc: identifier, `others` or
      a string literal (exprs.py:344). */
  function ParseParamDesignator(ts: seq<Token>, pos: nat): (r: Parsed<Choice>)
    requires pos <= |ts|
    ensures Advances(ts, pos, r)
    ensures r.Match? <==> pos < |ts| && (ts[pos].IdentTok? || ts[pos].StringTok? || ts[pos] == Sym(KwOthers))
    ensures r.Match? ==> r.next == pos + 1 && DesignatorWellFormed(r.node)
    ensures r.Match? && ts[pos].IdentTok? ==> r.node == ChoiceExpr(Identifier(ts[pos]))
    ensures r.Match? && ts[pos].StringTok? ==> r.node == ChoiceExpr(StringLiteral(ts[pos]))
    ensures r.Match? && ts[pos] == Sym(KwOthers) ==> r.node == OthersDesignator
  {
    var id := ParseIdentifier(ts, pos);
    if id.Match? then Match(ChoiceExpr(id.node), id.next) else
    var others := ParseOthersDesignator(ts, pos);
    if others.Match? then others else
    var str := ParseStringLiteral(ts, pos);
    if str.Match? then Match(ChoiceExpr(str.node), str.next) else NoMatch
  }

  /** param_assoc (exprs.py:343-347): an optional `designator =>`, then an
      expression or `<>`. */
  function ParseParamAssoc(ts: seq<Token>, pos: nat): (r: Parsed<ParamAssoc>)
    requires pos <= |ts|
    ensures Advances(ts, pos, r)
    ensures r.Match? && r.node.designator.Some? ==> IsSym(ts, pos + 1, Arrow)
    decreases |ts| - pos, 12
  {
    var d := ParseParamDesignator(ts, pos);
    var designated := d.Match? && IsSym(ts, d.next, Arrow);
    var designator := if designated then Some(d.node) else None;
    var p := if designated then d.next + 1 else pos;
    var value := ParseExpression(ts, p);
    var value' := if value.Match? then value else ParseDiamondExpr(ts, p);
    match value'
    case NoMatch => NoMatch
    case Match(e, q) => Match(ParamAssoc(designator, e), q)
  }

  // =====================================================================
  // Allocators, conditional, quantified and raise expressions

  /** allocator (exprs.py:265-267): `new`, an optional parenthesized
      subpool name, then the allocated type or qualified expression. */
  function ParseAllocator(ts: seq<Token>, pos: nat): (r: Parsed<Expr>)
    requires pos <= |ts|
    ensures Advances(ts, pos, r)
    ensures r.Match? ==> IsSym(ts, pos, KwNew)
    decreases |ts| - pos, 1
  {
    if !IsSym(ts, pos, KwNew) then NoMatch
    else
      var sub: Parsed<Expr> :=
        if !IsSym(ts, pos + 1, LParen) then NoMatch
        else (match ParseName(ts, pos + 2)
              case NoMatch => NoMatch
              case Match(n, p) => if IsSym(ts, p, RParen) then Match(n, p + 1) else NoMatch);
      var subpool := if sub.Match? then Some(sub.node) else None;
      var p := if sub.Match? then sub.next else pos + 1;
      match ParseName(ts, p)
      case NoMatch => NoMatch
      case Match(t, q) => Match(Allocator(subpool, t), q)
  }

  /** `Opt(kw, expression)[1]`: used for `else` in if_expression and for
      `with` in raise_expression. */
  function ParseKeywordExpression(ts: seq<Token>, pos: nat, kw: Symbol): (r: (Option<Expr>, nat))
    requires pos <= |ts|
    ensures pos <= r.1 <= |ts|
    ensures r.0.None? <==> r.1 == pos
    ensures r.0.Some? ==> IsSym(ts, pos, kw) && ParseExpression(ts, pos + 1) == Match(r.0.value, r.1)
    ensures IsSym(ts, pos, kw) && ParseExpression(ts, pos + 1).Match? ==> r.0.Some?
    decreases |ts| - pos, 1
  {
    if !IsSym(ts, pos, kw) then (None, pos)
    else
      match ParseExpression(ts, pos + 1)
      case NoMatch => (None, pos)
      case Match(e, q) => (Some(e), q)
  }

  /** raise_expression (exprs.py:298-301): `raise` with an exception name
      and optional message, else a bare `raise`. */
  function ParseRaiseExpression(ts: seq<Token>, pos: nat): (r: Parsed<Expr>)
    requires pos <= |ts|
    ensures Advances(ts, pos, r)
    ensures r.Match? <==> IsSym(ts, pos, KwRaise)
    ensures r.Match? ==> r.node.RaiseExpression?
    decreases |ts| - pos, 1
  {
    if !IsSym(ts, pos, KwRaise) then NoMatch
    else
      match ParseName(ts, pos + 1)
      case NoMatch => Match(RaiseExpression(None, None), pos + 1)
      case Match(n, p) =>
        var (msg, q) := ParseKeywordExpression(ts, p, KwWith);
        Match(RaiseExpression(Some(n), msg), q)
  }

  /** if_expression (exprs.py:303-308). */
  function ParseIfExpression(ts: seq<Token>, pos: nat): (r: Parsed<Expr>)
    requires pos <= |ts|
    ensures Advances(ts, pos, r)
    ensures r.Match? ==> IsSym(ts, pos, KwIf)
    decreases |ts| - pos, 1
  {
    if !IsSym(ts, pos, KwIf) then NoMatch
    else
      match ParseExpression(ts, pos + 1)
      case NoMatch => NoMatch
      case Match(cond, p) =>
        if !IsSym(ts, p, KwThen) then NoMatch
        else
          match ParseExpression(ts, p + 1)
          case NoMatch => NoMatch
          case Match(thenExpr, q) =>
            var (elsifs, q2) := ParseElsifParts(ts, q);
            var (elseExpr, q3) := ParseKeywordExpression(ts, q2, KwElse);
            Match(IfExpr(cond, thenExpr, elsifs, elseExpr), q3)
  }

  /** The `List(Row("elsif", expression, "then", expression), empty_valid=True)`
      of if_expression: zero or more parts. */
  function ParseElsifParts(ts: seq<Token>, pos: nat): (r: (seq<ElsifExprPart>, nat))
    requires pos <= |ts|
    ensures pos <= r.1 <= |ts|
    ensures r.0 == [] <==> r.1 == pos
    decreases |ts| - pos, 2
  {
    match ParseElsifExprPart(ts, pos)
    case NoMatch => ([], pos)
    case Match(part, p) =>
      var (rest, q) := ParseElsifParts(ts, p);
      ([part] + rest, q)
  }

  function ParseElsifExprPart(ts: seq<Token>, pos: nat): (r: Parsed<ElsifExprPart>)
    requires pos <= |ts|
    ensures Advances(ts, pos, r)
    ensures r.Match? ==> IsSym(ts, pos, KwElsif)
    decreases |ts| - pos, 1
  {
    if !IsSym(ts, pos, KwElsif) then NoMatch
    else
      match ParseExpression(ts, pos + 1)
      case NoMatch => NoMatch
      case Match(cond, p) =>
        if !IsSym(ts, p, KwThen) then NoMatch
        else
          match ParseExpression(ts, p + 1)
          case NoMatch => NoMatch
          case Match(thenExpr, q) => Match(ElsifExprPart(cond, thenExpr), q)
  }

  /** case_expression (exprs.py:288-291). */
  function ParseCaseExpression(ts: seq<Token>, pos: nat): (r: Parsed<Expr>)
    requires pos <= |ts|
    ensures Advances(ts, pos, r)
    ensures r.Match? ==> IsSym(ts, pos, KwCase)
    decreases |ts| - pos, 1
  {
    if !IsSym(ts, pos, KwCase) then NoMatch
    else
      match ParseExpression(ts, pos + 1)
      case NoMatch => NoMatch
      case Match(e, p) =>
        if !IsSym(ts, p, KwIs) then NoMatch
        else
          match ParseCaseExprAlts(ts, p + 1)
          case NoMatch => NoMatch
          case Match(alts, q) => Match(CaseExpr(e, alts), q)
  }

  /** The `List(case_expr_alt, sep=",")` of case_expression. */
  function ParseCaseExprAlts(ts: seq<Token>, pos: nat): (r: Parsed<seq<CaseExprAlternative>>)
    requires pos <= |ts|
    ensures Advances(ts, pos, r)
    ensures r.Match? ==> |r.node| > 0
    decreases |ts| - pos, 2
  {
    match ParseCaseExprAlt(ts, pos)
    case NoMatch => NoMatch
    case Match(alt, p) =>
      if !IsSym(ts, p, Comma) then Match([alt], p)
      else
        match ParseCaseExprAlts(ts, p + 1)
        case NoMatch => Match([alt], p)
        case Match(rest, q) => Match([alt] + rest, q)
  }

  /** case_expr_alt (exprs.py:293-295). */
  function ParseCaseExprAlt(ts: seq<Token>, pos: nat): (r: Parsed<CaseExprAlternative>)
    requires pos <= |ts|
    ensures Advances(ts, pos, r)
    ensures r.Match? ==> IsSym(ts, pos, KwWhen)
    decreases |ts| - pos, 1
  {
    if !IsSym(ts, pos, KwWhen) then NoMatch
    else
      match ParseChoiceList(ts, pos + 1)
      case NoMatch => NoMatch
      case Match(cs, p) =>
        if !IsSym(ts, p, Arrow) then NoMatch
        else
          match ParseExpression(ts, p + 1)
          case NoMatch => NoMatch
          case Match(e, q) => Match(CaseExprAlternative(cs, e), q)
  }

  /** conditional_expression (exprs.py:310-311). */
  function ParseConditionalExpression(ts: seq<Token>, pos: nat): (r: Parsed<Expr>)
    requires pos <= |ts|
    ensures Advances(ts, pos, r)
    ensures r.Match? ==> (IsSym(ts, pos, KwIf) || IsSym(ts, pos, KwCase) || IsSym(ts, pos, KwFor))
    decreases |ts| - pos, 2
  {
    var ifExpr := ParseIfExpression(ts, pos);
    if ifExpr.Match? then ifExpr else
    var caseExpr := ParseCaseExpression(ts, pos);
    if caseExpr.Match? then caseExpr else
    ParseQuantifiedExpression(ts, pos)
  }

  /** quantified_expression (exprs.py:276-281). */
  function ParseQuantifiedExpression(ts: seq<Token>, pos: nat): (r: Parsed<Expr>)
    requires pos <= |ts|
    ensures Advances(ts, pos, r)
    ensures r.Match? ==> IsSym(ts, pos, KwFor)
    decreases |ts| - pos, 1
  {
    if !IsSym(ts, pos, KwFor) then NoMatch
    else
      var q := if pos + 1 < |ts| then QuantifierOf(ts[pos + 1]) else None;
      if q.None? then NoMatch
      else
        match ParseForLoopParameterSpec(ts, pos + 2)
        case NoMatch => NoMatch
        case Match(spec, p) =>
          if !IsSym(ts, p, Arrow) then NoMatch
          else
            var body := ParseExpression(ts, p + 1);
            var body' := if body.Match? then body else ParseDiscreteRange(ts, p + 1);
            match body'
            case NoMatch => NoMatch
            case Match(e, q2) => Match(QuantifiedExpr(q.value, spec, e), q2)
  }

  /** for_loop_parameter_spec (exprs.py:269-274). The subtype alternative
      `constrained_type_ref` is defined outside this file; it is `name` here. */
  function ParseForLoopParameterSpec(ts: seq<Token>, pos: nat): (r: Parsed<ForLoopSpec>)
    requires pos <= |ts|
    ensures Advances(ts, pos, r)
    ensures r.Match? ==> r.node.isReverse == IsSym(ts, pos + 2, KwReverse)
    decreases |ts| - pos, 1
  {
    match ParseIdentifier(ts, pos)
    case NoMatch => NoMatch
    case Match(id, p) =>
      var iter := if p < |ts| then IterTypeOf(ts[p]) else None;
      if iter.None? then NoMatch
      else
        var isReverse := IsSym(ts, p + 1, KwReverse);
        var p2 := if isReverse then p + 2 else p + 1;
        match ParseLoopSource(ts, p2)
        case NoMatch => NoMatch
        case Match(e, q) => Match(ForLoopSpec(id, iter.value, isReverse, e), q)
  }

  /** The source alternatives of for_loop_parameter_spec (exprs.py:272-273),
      tried in order: the subtype (a name here), a discrete range, an
      expression. */
  function ParseLoopSource(ts: seq<Token>, pos: nat): (r: Parsed<Expr>)
    requires pos <= |ts|
    ensures Advances(ts, pos, r)
    ensures ParseName(ts, pos).Match? ==> r == ParseName(ts, pos)
    ensures ParseName(ts, pos).NoMatch? && ParseDiscreteRange(ts, pos).Match? ==> r == ParseDiscreteRange(ts, pos)
    ensures ParseName(ts, pos).NoMatch? && ParseDiscreteRange(ts, pos).NoMatch? ==> r == ParseExpression(ts, pos)
    decreases |ts| - pos, 13
  {
    var subtype := ParseName(ts, pos);
    var range := if subtype.Match? then subtype else ParseDiscreteRange(ts, pos);
    if range.Match? then range else ParseExpression(ts, pos)
  }

  // =====================================================================
  // Aggregates (exprs.py:317-338)

  /** aggregate (exprs.py:332-338): `(`, an optional `ancestor with`, then
      `null record` or a list of associations, then `)`. */
  function ParseAggregate(ts: seq<Token>, pos: nat): (r: Parsed<Expr>)
    requires pos <= |ts|
    ensures Advances(ts, pos, r)
    ensures r.Match? ==> IsSym(ts, pos, LParen) && IsSym(ts, r.next - 1, RParen)
    ensures r.Match? ==> r.node.Aggregate?
    decreases |ts| - pos, 1
  {
    if !IsSym(ts, pos, LParen) then NoMatch
    else
      var anc := ParseExpression(ts, pos + 1);
      var hasAncestor := anc.Match? && IsSym(ts, anc.next, KwWith);
      var ancestor := if hasAncestor then Some(anc.node) else None;
      var p := if hasAncestor then anc.next + 1 else pos + 1;
      var nullContent := ParseAggregateContentNull(ts, p);
      var content := if nullContent.Match? then nullContent else ParseAggregateContent(ts, p);
      match content
      case NoMatch => NoMatch
      case Match(c, q) => if IsSym(ts, q, RParen) then Match(Aggregate(ancestor, c), q + 1) else NoMatch
  }

  /** aggregate_content_null (exprs.py:328-330). */
  function ParseAggregateContentNull(ts: seq<Token>, pos: nat): (r: Parsed<AbstractAggregateContent>)
    requires pos <= |ts|
    ensures r.Match? <==> IsSym(ts, pos, KwNull) && IsSym(ts, pos + 1, KwRecord)
    ensures r.Match? ==> r == Match(NullRecordContent, pos + 2)
  {
    if IsSym(ts, pos, KwNull) && IsSym(ts, pos + 1, KwRecord) then Match(NullRecordContent, pos + 2)
    else NoMatch
  }

  /** aggregate_content (exprs.py:327). */
  function ParseAggregateContent(ts: seq<Token>, pos: nat): (r: Parsed<AbstractAggregateContent>)
    requires pos <= |ts|
    ensures Advances(ts, pos, r)
    ensures r.Match? ==> r.node.AggregateContent?
    decreases |ts| - pos, 19
  {
    match ParseAggregateAssocs(ts, pos)
    case NoMatch => NoMatch
    case Match(fields, q) => Match(AggregateContent(fields), q)
  }

  /** The `List(aggregate_assoc, sep=",")` of aggregate_content. */
  function ParseAggregateAssocs(ts: seq<Token>, pos: nat): (r: Parsed<seq<AggregateAssoc>>)
    requires pos <= |ts|
    ensures Advances(ts, pos, r)
    ensures r.Match? ==> |r.node| > 0
    decreases |ts| - pos, 18
  {
    match ParseAggregateAssoc(ts, pos)
    case NoMatch => NoMatch
    case Match(a, p) =>
      if !IsSym(ts, p, Comma) then Match([a], p)
      else
        match ParseAggregateAssocs(ts, p + 1)
        case NoMatch => Match([a], p)
        case Match(rest, q) => Match([a] + rest, q)
  }

  /** aggregate_assoc (exprs.py:323-326): an optional `field =>`, then `<>`
      or an expression. */
  function ParseAggregateAssoc(ts: seq<Token>, pos: nat): (r: Parsed<AggregateAssoc>)
    requires pos <= |ts|
    ensures Advances(ts, pos, r)
    decreases |ts| - pos, 17
  {
    var field := ParseAggregateField(ts, pos);
    var designated := field.Match? && IsSym(ts, field.next, Arrow);
    var designator := if designated then Some(field.node) else None;
    var p := if designated then field.next + 1 else pos;
    var value := ParseDiamondExpr(ts, p);
    var value' := if value.Match? then value else ParseExpression(ts, p);
    match value'
    case NoMatch => NoMatch
    case Match(e, q) => Match(AggregateAssoc(designator, e), q)
  }

  /** aggregate_field (exprs.py:317-321). */
  function ParseAggregateField(ts: seq<Token>, pos: nat): (r: Parsed<AggregateField>)
    requires pos <= |ts|
    ensures Advances(ts, pos, r)
    decreases |ts| - pos, 16
  {
    var choices := ParseChoiceList(ts, pos);
    if choices.Match? then Match(AggregateMember(choices.node), choices.next) else
    var e := ParseExpression(ts, pos);
    if e.Match? then Match(FieldChoice(ChoiceExpr(e.node)), e.next) else
    match ParseOthersDesignator(ts, pos)
    case NoMatch => NoMatch
    case Match(o, q) => Match(FieldChoice(o), q)
  }

  // =====================================================================
  // static_name (exprs.py:367-372): identifiers or string literals
  // separated by `.`, folded to the left into NamePrefix nodes.

  function ParseStaticNameSegment(ts: seq<Token>, pos: nat): (r: Parsed<Expr>)
    requires pos <= |ts|
    ensures r.Match? <==> pos < |ts| && (ts[pos].IdentTok? || ts[pos].StringTok?)
    ensures r.Match? ==> r.next == pos + 1 && IsBaseId(r.node) && r.node.tok == ts[pos]
    ensures r.Match? ==> r.node == if ts[pos].IdentTok? then Identifier(ts[pos]) else StringLiteral(ts[pos])
  {
    var id := ParseIdentifier(ts, pos);
    if id.Match? then id else ParseStringLiteral(ts, pos)
  }

  /** The tokens at `start`, `start + 2`, ... are `segs`, with a `.` between
      each two of them. */
  ghost predicate DottedAt(ts: seq<Token>, start: nat, segs: seq<Token>) {
    && |segs| > 0
    && start + 2 * |segs| - 1 <= |ts|
    && (forall i :: 0 <= i < |segs| ==> ts[start + 2 * i] == segs[i])
    && (forall i :: 0 <= i < |segs| - 1 ==> ts[start + 2 * i + 1] == Sym(Dot))
  }

  function ParseStaticName(ts: seq<Token>, pos: nat): (r: Parsed<Expr>)
    requires pos <= |ts|
    ensures Advances(ts, pos, r)
    ensures r.Match? <==> pos < |ts| && (ts[pos].IdentTok? || ts[pos].StringTok?)
    ensures r.Match? ==> IsStaticName(r.node) && IsBaseName(r.node)
    ensures r.Match? ==> DottedAt(ts, pos, Segments(r.node)) && r.next == pos + 2 * |Segments(r.node)| - 1
    ensures r.Match? ==> RelativeName(r.node) == ts[r.next - 1]
    ensures r.Match? ==> !(IsSym(ts, r.next, Dot) && ParseStaticNameSegment(ts, r.next + 1).Match?)
  {
    match ParseStaticNameSegment(ts, pos)
    case NoMatch => NoMatch
    case Match(s, p) => ParseStaticNameRest(ts, s, p, pos)
  }

  /** Extends the chain `acc`, which was read from `start` up to `pos`. */
  function ParseStaticNameRest(ts: seq<Token>, acc: Expr, pos: nat, ghost start: nat): (r: Parsed<Expr>)
    requires pos <= |ts|
    requires IsStaticName(acc) && IsBaseName(acc)
    requires DottedAt(ts, start, Segments(acc)) && pos == start + 2 * |Segments(acc)| - 1
    ensures r.Match? && pos <= r.next <= |ts|
    ensures IsStaticName(r.node) && IsBaseName(r.node)
    ensures DottedAt(ts, start, Segments(r.node)) && r.next == start + 2 * |Segments(r.node)| - 1
    ensures RelativeName(r.node) == ts[r.next - 1]
    ensures !(IsSym(ts, r.next, Dot) && ParseStaticNameSegment(ts, r.next + 1).Match?)
    decreases |ts| - pos
  {
    if IsSym(ts, pos, Dot) && ParseStaticNameSegment(ts, pos + 1).Match? then
      var s := ParseStaticNameSegment(ts, pos + 1);
      var acc' := NamePrefix(acc, s.node);
      assert Segments(acc') == Segments(acc) + [s.node.tok];
      ParseStaticNameRest(ts, acc', s.next, start)
    else
      Match(acc, pos)
  }
}
