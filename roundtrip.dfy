/** Precedence, associativity and operator priority of the expression
    ladder (exprs.py:381-458), stated as one theorem: printing an operator
    expression with the fewest parentheses the grammar needs, then parsing
    the tokens, gives the expression back.

    The printer is the reference reading of the ladder. Each precedence
    level says which nodes it shows without parentheses and at which level
    it shows their operands; this is where the theorem says that `*` binds
    tighter than `+`, that chains nest to the right, that only the first
    term of a simple expression carries a sign, that `**` joins exactly two
    primaries, and that a membership expression takes a whole choice list. */
module RoundTrip {
  import opened Tokens
  import opened Ast
  import opened Grammar

  /** The precedence levels, lowest (`primary`) first. `LU` is unop_term,
      `LS2` simple_expr_2, `LC` an expression that is an item of a choice
      list (one that does not end in a membership expression). */
  datatype Level = LP | LF | LT | LU | LS2 | LS | LR | LC | LE

  /** The levels in order: a phrase of a higher level extends over more tokens. */
  function LevelRank(l: Level): nat {
    match l
    case LP => 0 case LF => 1 case LT => 2 case LU => 3 case LS2 => 4
    case LS => 5 case LR => 6 case LC => 7 case LE => 8
  }

  // ---------------------------------------------------------------------
  // The printable fragment: literals, names and the ladder's operators.

  predicate IsRange(e: Expr) {
    e.BinOp? && e.op == EllipsisOp
  }

  predicate Printable(e: Expr) {
    match e
    case NumLiteral(t) => t.NumberTok?
    case NullLiteral(t) => t == Sym(KwNull)
    case Identifier(t) => t.IdentTok?
    case StringLiteral(t) => t.StringTok?
    case CharLiteral(t) => t.CharTok?
    case UnOp(op, x) => IsUnaryOp(op) && Printable(x)
    case BinOp(l, op, r) => IsBinaryOp(op) && op != EllipsisOp && Printable(l) && Printable(r)
    case MembershipExpr(x, op, cs) =>
      IsMembershipOp(op) && Printable(x) && |cs| > 0 && forall c <- cs :: PrintableChoice(c)
    case _ => false
  }

  /** A choice is `others`, a range of two printable bounds, or a printable expression. */
  predicate PrintableChoice(c: Choice) {
    match c
    case OthersDesignator => true
    case ChoiceExpr(e) => if IsRange(e) then Printable(e.left) && Printable(e.right) else Printable(e)
  }

  /** The spelling of each operator. */
  function OpTokens(op: Op): (r: seq<Token>)
    ensures 1 <= |r| <= 2
  {
    match op
    case AndOp => [Sym(KwAnd)]
    case OrOp => [Sym(KwOr)]
    case OrElseOp => [Sym(KwOr), Sym(KwElse)]
    case AndThenOp => [Sym(KwAnd), Sym(KwThen)]
    case XorOp => [Sym(KwXor)]
    case InOp => [Sym(KwIn)]
    case NotInOp => [Sym(KwNot), Sym(KwIn)]
    case AbsOp => [Sym(KwAbs)]
    case NotOp => [Sym(KwNot)]
    case PowOp => [Sym(StarStar)]
    case MultOp => [Sym(Star)]
    case DivOp => [Sym(Slash)]
    case ModOp => [Sym(KwMod)]
    case RemOp => [Sym(KwRem)]
    case PlusOp => [Sym(PlusSign)]
    case MinusOp => [Sym(MinusSign)]
    case BinAndOp => [Sym(Ampersand)]
    case EqOp => [Sym(Equal)]
    case NeqOp => [Sym(NotEqual)]
    case LtOp => [Sym(Less)]
    case LteOp => [Sym(LessEqual)]
    case GtOp => [Sym(Greater)]
    case GteOp => [Sym(GreaterEqual)]
    case EllipsisOp => [Sym(DotDot)]
  }

  /** Whether `e` can be shown at `lvl` without parentheses. */
  predicate Fits(e: Expr, lvl: Level) {
    match e
    case UnOp(op, _) => if IsUnaryAddingOp(op) then LevelRank(lvl) >= 3 && lvl != LS2 else lvl != LP
    case BinOp(_, op, _) => LevelRank(lvl) >= BinPrec(op)
    case MembershipExpr(_, _, _) => lvl == LE
    case _ => true
  }

  /** The operand of `abs`/`not` is a primary (exprs.py:383-384); that of a
      sign is a term (exprs.py:399-401). */
  function UnaryOperandLevel(op: Op): Level {
    if IsUnaryAddingOp(op) then LT else LP
  }

  /** The rank of the lowest level that shows a binary node of `op` without
      parentheses: that of expression for the boolean operators, relation
      for the relational ones, simple_expr_2 for the adding ones, term for
      the multiplying ones and factor for `**`. */
  function BinPrec(op: Op): nat {
    if IsBooleanOp(op) then 7
    else if IsRelationalOp(op) then 6
    else if IsAddingOp(op) then 4
    else if IsMultiplyingOp(op) then 2
    else 1
  }

  function LeftLevel(op: Op, lvl: Level): Level {
    var k := BinPrec(op);
    if k == 7 then LR
    else if k == 6 then LS
    else if k == 4 then (if lvl == LS2 then LT else LU)
    else if k == 2 then LF
    else LP
  }

  function RightLevel(op: Op, lvl: Level): Level {
    var k := BinPrec(op);
    if k == 7 then lvl
    else if k == 6 then LR
    else if k == 4 then LS2
    else if k == 2 then LT
    else LP
  }

  /** The tokens of `e` shown at `lvl`: in parentheses when it does not fit there. */
  function Show(e: Expr, lvl: Level): seq<Token>
    requires Printable(e)
    decreases e, if Fits(e, lvl) then 1 else 2
  {
    if !Fits(e, lvl) then [Sym(LParen)] + Show(e, LE) + [Sym(RParen)] else ShowFitting(e, lvl)
  }

  /** The tokens of `e` shown at a level it fits. */
  function ShowFitting(e: Expr, lvl: Level): seq<Token>
    requires Printable(e) && Fits(e, lvl)
    decreases e, 0
  {
    match e
    case UnOp(op, x) => OpTokens(op) + Show(x, UnaryOperandLevel(op))
    case BinOp(l, op, r) => Show(l, LeftLevel(op, lvl)) + OpTokens(op) + Show(r, RightLevel(op, lvl))
    case MembershipExpr(x, op, cs) => Show(x, LS) + OpTokens(op) + ShowChoices(cs)
    case _ => [e.tok]
  }

  function ShowChoice(c: Choice): seq<Token>
    requires PrintableChoice(c)
    decreases c, 0
  {
    match c
    case OthersDesignator => [Sym(KwOthers)]
    case ChoiceExpr(e) =>
      if IsRange(e) then Show(e.left, LC) + [Sym(DotDot)] + Show(e.right, LC) else Show(e, LC)
  }

  function ShowChoices(cs: seq<Choice>): seq<Token>
    requires |cs| > 0 && forall c <- cs :: PrintableChoice(c)
    decreases cs, 1
  {
    if |cs| == 1 then ShowChoice(cs[0]) else ShowChoice(cs[0]) + [Sym(Bar)] + ShowChoices(cs[1..])
  }

  // ---------------------------------------------------------------------
  // What may follow a level: a token that would extend a phrase of the
  // level is not a place where it stops.

  /** The lowest level at which `t` extends a phrase (9: at none). */
  function ExtLevel(t: Token): nat {
    if t == Sym(LParen) || t == Sym(Dot) || t == Sym(Tick) then 0
    else if t == Sym(StarStar) then 1
    else if MultiplyingOp(t).Some? then 2
    else if AddingOp(t).Some? then 4
    else if RelationalOp(t).Some? || t == Sym(KwIn) || t == Sym(KwNot) then 6
    else if t == Sym(KwAnd) || t == Sym(KwOr) || t == Sym(KwXor) then 7
    else if t == Sym(Bar) || t == Sym(DotDot) then 8
    else 9
  }

  predicate InExt(t: Token, lvl: Level) {
    ExtLevel(t) <= LevelRank(lvl)
  }

  /** Position `p` ends a phrase of level `lvl`: the input ends there or its
      token cannot extend the phrase. */
  predicate Stops(ts: seq<Token>, p: nat, lvl: Level) {
    p == |ts| || (p < |ts| && !InExt(ts[p], lvl))
  }

  /** The end of a choice: not `..` (which would make it a range) and not
      anything that extends an expression. */
  predicate ChoiceStops(ts: seq<Token>, p: nat) {
    Stops(ts, p, LC) && !IsSym(ts, p, DotDot)
  }

  /** The `i`th token of `s`. At is stated through it so that only the
      lemmas about At look inside it. */
  function Nth(s: seq<Token>, i: nat): Token
    requires i < |s|
  {
    s[i]
  }

  /** `ts` holds `s` from `pos` on. */
  predicate At(ts: seq<Token>, pos: nat, s: seq<Token>) {
    pos + |s| <= |ts| && forall i: nat :: i < |s| ==> ts[pos + i] == Nth(s, i)
  }

  lemma AtConcat(ts: seq<Token>, pos: nat, a: seq<Token>, b: seq<Token>)
    requires At(ts, pos, a + b)
    ensures At(ts, pos, a) && At(ts, pos + |a|, b)
  {
    forall i: nat | i < |a| ensures ts[pos + i] == Nth(a, i) {
      assert Nth(a + b, i) == a[i];
    }
    forall j: nat | j < |b| ensures ts[pos + |a| + j] == Nth(b, j) {
      assert Nth(a + b, |a| + j) == b[j];
    }
  }

  lemma AtConcat3(ts: seq<Token>, pos: nat, a: seq<Token>, b: seq<Token>, c: seq<Token>)
    requires At(ts, pos, a + b + c)
    ensures At(ts, pos, a) && At(ts, pos + |a|, b) && At(ts, pos + |a| + |b|, c)
  {
    AtConcat(ts, pos, a + b, c);
    AtConcat(ts, pos, a, b);
  }

  lemma AtHead(ts: seq<Token>, p: nat, s: seq<Token>)
    requires At(ts, p, s) && |s| > 0
    ensures p < |ts| && ts[p] == s[0]
  {
    assert ts[p + 0] == Nth(s, 0);
  }

  lemma AtSuffix(ts: seq<Token>, pos: nat)
    requires pos <= |ts|
    ensures At(ts, pos, ts[pos..])
  {
  }

  // ---------------------------------------------------------------------
  // Facts about the printer

  predicate ShowStart(t: Token) {
    || t.NumberTok? || t.IdentTok? || t.StringTok? || t.CharTok?
    || t == Sym(KwNull) || t == Sym(LParen) || t == Sym(PlusSign) || t == Sym(MinusSign)
    || t == Sym(KwAbs) || t == Sym(KwNot)
  }

  predicate IsSign(t: Token) {
    t == Sym(PlusSign) || t == Sym(MinusSign)
  }

  predicate PrimaryStart(t: Token) {
    t.NumberTok? || t.IdentTok? || t.StringTok? || t.CharTok? || t == Sym(KwNull) || t == Sym(LParen)
  }

  /** The first token shown: a primary can only start with a literal, a
      name or `(`; only a factor that is an `abs`/`not` node starts with
      `abs`/`not`; only an unop_term that is a signed term starts with a
      sign, and below unop_term nothing does. */
  lemma {:induction false} ShowFirst(e: Expr, lvl: Level)
    requires Printable(e)
    ensures |Show(e, lvl)| > 0 && ShowStart(Show(e, lvl)[0])
    ensures lvl == LP ==> PrimaryStart(Show(e, lvl)[0])
    ensures lvl == LF && !(e.UnOp? && IsHighestPrecedenceOp(e.op)) ==> PrimaryStart(Show(e, lvl)[0])
    ensures LevelRank(lvl) <= 2 || lvl == LS2 ==> !IsSign(Show(e, lvl)[0])
    ensures lvl == LU && !(e.UnOp? && IsUnaryAddingOp(e.op)) ==> !IsSign(Show(e, lvl)[0])
    decreases e, if Fits(e, lvl) then 0 else 1
  {
    if Fits(e, lvl) {
      match e
      case UnOp(op, x) =>
      case BinOp(l, op, r) =>
        ShowFirst(l, LeftLevel(op, lvl));
        var left := Show(l, LeftLevel(op, lvl));
        assert Show(e, lvl) == left + OpTokens(op) + Show(r, RightLevel(op, lvl));
        assert Show(e, lvl)[0] == left[0];
      case MembershipExpr(x, op, cs) =>
        ShowFirst(x, LS);
        var left := Show(x, LS);
        assert Show(e, lvl) == left + OpTokens(op) + ShowChoices(cs);
        assert Show(e, lvl)[0] == left[0];
      case _ =>
    }
  }

  /** A node shown at two levels it fits (or fits neither) prints the same,
      unless its operand levels differ between the two. */
  lemma ShowSame(e: Expr, l1: Level, l2: Level)
    requires Printable(e)
    requires Fits(e, l1) <==> Fits(e, l2)
    requires !(Fits(e, l1) && e.BinOp? && IsBooleanOp(e.op) && l1 != l2)
    requires !(Fits(e, l1) && e.BinOp? && IsAddingOp(e.op) && (l1 == LS2) != (l2 == LS2))
    ensures Show(e, l1) == Show(e, l2)
  {
  }

  // ---------------------------------------------------------------------
  // Where the pieces of a printed node lie in the token sequence. These
  // lemmas reason about the printer only.

  lemma FirstAt(ts: seq<Token>, pos: nat, e: Expr, lvl: Level)
    requires Printable(e) && At(ts, pos, Show(e, lvl))
    ensures pos < |ts| && ShowStart(ts[pos])
    ensures lvl == LP ==> PrimaryStart(ts[pos])
    ensures lvl == LF && !(e.UnOp? && IsHighestPrecedenceOp(e.op)) ==> PrimaryStart(ts[pos])
    ensures lvl == LU && !(e.UnOp? && IsUnaryAddingOp(e.op)) ==> !IsSign(ts[pos])
  {
    ShowFirst(e, lvl);
    AtHead(ts, pos, Show(e, lvl));
  }

  lemma StopsMono(ts: seq<Token>, p: nat, l1: Level, l2: Level)
    requires LevelRank(l2) <= LevelRank(l1) && Stops(ts, p, l1)
    ensures Stops(ts, p, l2)
  {
  }

  lemma LeafLayout(ts: seq<Token>, pos: nat, e: Expr)
    requires Printable(e) && Fits(e, LP) && At(ts, pos, Show(e, LP)) && Stops(ts, pos + |Show(e, LP)|, LP)
    ensures !e.UnOp? && !e.BinOp? && !e.MembershipExpr?
    ensures |Show(e, LP)| == 1 && pos < |ts| && ts[pos] == e.tok && Stops(ts, pos + 1, LP)
  {
    ShowFirst(e, LP);
    AtHead(ts, pos, Show(e, LP));
  }

  lemma ParenLayout(ts: seq<Token>, pos: nat, e: Expr, lvl: Level)
    requires Printable(e) && !Fits(e, lvl) && At(ts, pos, Show(e, lvl))
    ensures |Show(e, lvl)| == |Show(e, LE)| + 2
    ensures IsSym(ts, pos, LParen) && pos + 1 < |ts| && ShowStart(ts[pos + 1])
    ensures At(ts, pos + 1, Show(e, LE)) && IsSym(ts, pos + 1 + |Show(e, LE)|, RParen)
    ensures Stops(ts, pos + 1 + |Show(e, LE)|, LE)
  {
    var s, inner := Show(e, lvl), Show(e, LE);
    assert s == [Sym(LParen)] + inner + [Sym(RParen)];
    AtHead(ts, pos, s);
    AtConcat3(ts, pos, [Sym(LParen)], inner, [Sym(RParen)]);
    AtHead(ts, pos + 1 + |inner|, [Sym(RParen)]);
    FirstAt(ts, pos + 1, e, LE);
  }

  lemma UnaryLayout(ts: seq<Token>, pos: nat, e: Expr, lvl: Level, ol: Level) returns (q: nat, end: nat)
    requires Printable(e) && e.UnOp? && Fits(e, lvl) && ol == UnaryOperandLevel(e.op)
    requires At(ts, pos, Show(e, lvl)) && Stops(ts, pos + |Show(e, lvl)|, lvl)
    ensures q == pos + |OpTokens(e.op)| && end == pos + |Show(e, lvl)|
    ensures At(ts, pos, OpTokens(e.op))
    ensures At(ts, q, Show(e.expr, ol)) && end == q + |Show(e.expr, ol)| && Stops(ts, end, ol)
  {
    var a, b := OpTokens(e.op), Show(e.expr, ol);
    q, end := pos + |a|, pos + |Show(e, lvl)|;
    assert Show(e, lvl) == a + b;
    AtConcat(ts, pos, a, b);
    StopsMono(ts, pos + |Show(e, lvl)|, lvl, ol);
  }

  /** The tokens `x` of a left operand lie at `pos` and end at `p`, where a
      phrase of level `ll` stops; the tokens `y` of the right operand lie at
      `q`, after the operator, and end at `end`, where a phrase of level `rl`
      stops. */
  predicate Operands(ts: seq<Token>, pos: nat, x: seq<Token>, ll: Level, p: nat, q: nat, y: seq<Token>, rl: Level, end: nat) {
    && At(ts, pos, x) && p == pos + |x| && Stops(ts, p, ll)
    && p < q && At(ts, q, y) && end == q + |y| && Stops(ts, end, rl)
  }

  /** `x`, then a non-empty `b`, then `y`. */
  lemma AtAround(ts: seq<Token>, pos: nat, x: seq<Token>, b: seq<Token>, y: seq<Token>)
    requires At(ts, pos, x + b + y) && |b| > 0
    ensures At(ts, pos, x) && At(ts, pos + |x|, b) && At(ts, pos + |x| + |b|, y)
    ensures pos + |x| < |ts| && ts[pos + |x|] == b[0] && |x + b + y| == |x| + |b| + |y|
  {
    AtConcat3(ts, pos, x, b, y);
    AtHead(ts, pos + |x|, b);
  }

  lemma StopsAt(ts: seq<Token>, p: nat, t: Token, lvl: Level)
    requires p < |ts| && ts[p] == t && !InExt(t, lvl)
    ensures Stops(ts, p, lvl)
  {
  }

  /** `s` is `x`, an operator spelled `b`, then `y`, and the operator's
      first token ends a phrase of level `ll`. */
  lemma InfixAt(ts: seq<Token>, pos: nat, s: seq<Token>, x: seq<Token>, b: seq<Token>, y: seq<Token>, ll: Level, rl: Level)
    requires s == x + b + y && |b| > 0 && !InExt(b[0], ll)
    requires At(ts, pos, s) && Stops(ts, pos + |s|, rl)
    ensures Operands(ts, pos, x, ll, pos + |x|, pos + |x| + |b|, y, rl, pos + |s|)
    ensures At(ts, pos + |x|, b) && pos + |x| < |ts| && ts[pos + |x|] == b[0]
  {
    AtAround(ts, pos, x, b, y);
    StopsAt(ts, pos + |x|, b[0], ll);
  }

  lemma MembershipLayout(ts: seq<Token>, pos: nat, e: Expr) returns (p: nat, q: nat, end: nat)
    requires Printable(e) && e.MembershipExpr?
    requires At(ts, pos, Show(e, LE)) && Stops(ts, pos + |Show(e, LE)|, LE)
    ensures p == pos + |Show(e.expr, LS)| && q == p + |OpTokens(e.op)| && end == pos + |Show(e, LE)|
    ensures At(ts, pos, Show(e.expr, LS)) && Stops(ts, p, LS)
    ensures p < |ts| && RelationalOp(ts[p]).None? && ParseRelOp(ts, p) == Match(e.op, q)
    ensures At(ts, q, ShowChoices(e.membershipExprs))
    ensures end == q + |ShowChoices(e.membershipExprs)| && Stops(ts, end, LE)
  {
    var a, b, c := Show(e.expr, LS), OpTokens(e.op), ShowChoices(e.membershipExprs);
    p, q, end := pos + |a|, pos + |a| + |b|, pos + |Show(e, LE)|;
    assert Show(e, LE) == a + b + c;
    AtConcat3(ts, pos, a, b, c);
    AtHead(ts, pos + |a|, b);
    MembershipSpelling(e.op);
    MembershipAt(ts, pos + |a|, e.op);
  }

  /** `a`, then the symbol `s`, then `d`. */
  lemma AtAroundSym(ts: seq<Token>, pos: nat, a: seq<Token>, s: Symbol, d: seq<Token>)
    requires At(ts, pos, a + [Sym(s)] + d)
    ensures At(ts, pos, a) && IsSym(ts, pos + |a|, s) && At(ts, pos + |a| + 1, d)
  {
    AtConcat3(ts, pos, a, [Sym(s)], d);
    AtHead(ts, pos + |a|, [Sym(s)]);
  }

  lemma RangeShape(c: Choice) returns (s: seq<Token>, x: seq<Token>, b: seq<Token>, y: seq<Token>)
    requires PrintableChoice(c) && c.ChoiceExpr? && IsRange(c.expr)
    ensures Printable(c.expr.left) && Printable(c.expr.right)
    ensures s == ShowChoice(c) && x == Show(c.expr.left, LC) && b == [Sym(DotDot)] && y == Show(c.expr.right, LC)
    ensures s == x + b + y
  {
    s, x, b, y := ShowChoice(c), Show(c.expr.left, LC), [Sym(DotDot)], Show(c.expr.right, LC);
  }

  lemma ChoicesShape(cs: seq<Choice>)
    requires |cs| > 1 && forall c <- cs :: PrintableChoice(c)
    ensures PrintableChoice(cs[0]) && forall c <- cs[1..] :: PrintableChoice(c)
    ensures ShowChoices(cs) == ShowChoice(cs[0]) + [Sym(Bar)] + ShowChoices(cs[1..])
  {
  }

  lemma ChoicesLayout(ts: seq<Token>, pos: nat, cs: seq<Choice>) returns (p: nat, end: nat)
    requires |cs| > 1 && forall c <- cs :: PrintableChoice(c)
    requires At(ts, pos, ShowChoices(cs))
    ensures p == pos + |ShowChoice(cs[0])| && end == pos + |ShowChoices(cs)|
    ensures At(ts, pos, ShowChoice(cs[0])) && ChoiceStops(ts, p) && IsSym(ts, p, Bar)
    ensures At(ts, p + 1, ShowChoices(cs[1..])) && end == p + 1 + |ShowChoices(cs[1..])|
  {
    p, end := pos + |ShowChoice(cs[0])|, pos + |ShowChoices(cs)|;
    ChoicesShape(cs);
    AtAroundSym(ts, pos, ShowChoice(cs[0]), Bar, ShowChoices(cs[1..]));
    BarEndsChoice(ts, pos + |ShowChoice(cs[0])|);
  }

  lemma BarEndsChoice(ts: seq<Token>, p: nat)
    requires IsSym(ts, p, Bar)
    ensures ChoiceStops(ts, p)
  {
  }

  // ---------------------------------------------------------------------
  // The spelling of an operator is read back as that operator by the rule
  // of its class.

  lemma UnaryAt(ts: seq<Token>, p: nat, op: Op)
    requires IsUnaryOp(op) && At(ts, p, OpTokens(op))
    ensures |OpTokens(op)| == 1 && p < |ts|
    ensures IsHighestPrecedenceOp(op) ==> HighestPrecedenceOp(ts[p]) == Some(op)
    ensures IsUnaryAddingOp(op) ==> UnaryAddingOp(ts[p]) == Some(op)
  {
    AtHead(ts, p, OpTokens(op));
  }

  lemma MembershipAt(ts: seq<Token>, p: nat, op: Op)
    requires IsMembershipOp(op) && At(ts, p, OpTokens(op))
    ensures p < |ts| && RelationalOp(ts[p]).None? && ParseRelOp(ts, p) == Match(op, p + |OpTokens(op)|)
  {
    AtHead(ts, p, OpTokens(op));
    if |OpTokens(op)| == 2 {
      assert ts[p + 1] == Nth(OpTokens(op), 1);
    }
  }

  /** `and` followed by the start of an operand is not the start of `and
      then`, and likewise for `or`. */
  lemma BooleanAt(ts: seq<Token>, p: nat, op: Op)
    requires IsBooleanOp(op) && At(ts, p, OpTokens(op))
    requires p + |OpTokens(op)| < |ts| && ShowStart(ts[p + |OpTokens(op)|])
    ensures ParseBooleanOp(ts, p) == Match(op, p + |OpTokens(op)|)
  {
    AtHead(ts, p, OpTokens(op));
    if |OpTokens(op)| == 2 {
      assert ts[p + 1] == Nth(OpTokens(op), 1);
    }
  }

  // ---------------------------------------------------------------------
  // The spelling of each operator class: its first token is read back by
  // the class's rule, and no phrase of the operator's left operand can
  // take it.

  lemma MultiplyingSpelling(op: Op)
    requires IsMultiplyingOp(op)
    ensures |OpTokens(op)| == 1 && MultiplyingOp(OpTokens(op)[0]) == Some(op)
    ensures !InExt(OpTokens(op)[0], LF)
  {
  }

  lemma AddingSpelling(op: Op)
    requires IsAddingOp(op)
    ensures |OpTokens(op)| == 1 && AddingOp(OpTokens(op)[0]) == Some(op)
    ensures !InExt(OpTokens(op)[0], LU) && !InExt(OpTokens(op)[0], LT)
  {
  }

  lemma RelationalSpelling(op: Op)
    requires IsRelationalOp(op)
    ensures |OpTokens(op)| == 1 && RelationalOp(OpTokens(op)[0]) == Some(op)
    ensures !InExt(OpTokens(op)[0], LS)
  {
  }

  lemma BooleanSpelling(op: Op)
    requires IsBooleanOp(op)
    ensures |OpTokens(op)| > 0 && !InExt(OpTokens(op)[0], LR)
  {
  }

  lemma MembershipSpelling(op: Op)
    requires IsMembershipOp(op)
    ensures |OpTokens(op)| > 0 && !InExt(OpTokens(op)[0], LS)
  {
  }

  // ---------------------------------------------------------------------
  // Where the operands of each operator node lie: a binary node shown at
  // the level of its rule is its left operand, its operator `b` and its
  // right operand, each at the level the rule parses it.

  lemma FactorPowShape(e: Expr) returns (s: seq<Token>, x: seq<Token>, b: seq<Token>, y: seq<Token>)
    requires Printable(e) && e.BinOp? && e.op == PowOp
    ensures Printable(e.left) && Printable(e.right)
    ensures s == Show(e, LF) && x == Show(e.left, LP) && b == [Sym(StarStar)] && y == Show(e.right, LP)
    ensures s == x + b + y
    ensures !InExt(b[0], LP)
  {
    s, x, b, y := Show(e, LF), Show(e.left, LP), [Sym(StarStar)], Show(e.right, LP);
    assert Fits(e, LF) && OpTokens(PowOp) == [Sym(StarStar)];
  }

  lemma TermProductShape(e: Expr) returns (s: seq<Token>, x: seq<Token>, b: seq<Token>, y: seq<Token>)
    requires Printable(e) && e.BinOp? && IsMultiplyingOp(e.op)
    ensures Printable(e.left) && Printable(e.right)
    ensures s == Show(e, LT) && x == Show(e.left, LF) && b == OpTokens(e.op) && y == Show(e.right, LT)
    ensures s == x + b + y
    ensures |b| == 1 && MultiplyingOp(b[0]) == Some(e.op) && !InExt(b[0], LF)
  {
    s, x, b, y := Show(e, LT), Show(e.left, LF), OpTokens(e.op), Show(e.right, LT);
    MultiplyingSpelling(e.op);
    assert Fits(e, LT) && LeftLevel(e.op, LT) == LF && RightLevel(e.op, LT) == LT;
  }

  lemma SimpleExpr2SumShape(e: Expr) returns (s: seq<Token>, x: seq<Token>, b: seq<Token>, y: seq<Token>)
    requires Printable(e) && e.BinOp? && IsAddingOp(e.op)
    ensures Printable(e.left) && Printable(e.right)
    ensures s == Show(e, LS2) && x == Show(e.left, LT) && b == OpTokens(e.op) && y == Show(e.right, LS2)
    ensures s == x + b + y
    ensures |b| == 1 && AddingOp(b[0]) == Some(e.op) && !InExt(b[0], LT)
  {
    s, x, b, y := Show(e, LS2), Show(e.left, LT), OpTokens(e.op), Show(e.right, LS2);
    AddingSpelling(e.op);
    assert Fits(e, LS2) && LeftLevel(e.op, LS2) == LT && RightLevel(e.op, LS2) == LS2;
  }

  lemma SimpleExprSumShape(e: Expr) returns (s: seq<Token>, x: seq<Token>, b: seq<Token>, y: seq<Token>)
    requires Printable(e) && e.BinOp? && IsAddingOp(e.op)
    ensures Printable(e.left) && Printable(e.right)
    ensures s == Show(e, LS) && x == Show(e.left, LU) && b == OpTokens(e.op) && y == Show(e.right, LS2)
    ensures s == x + b + y
    ensures |b| == 1 && AddingOp(b[0]) == Some(e.op) && !InExt(b[0], LU)
  {
    s, x, b, y := Show(e, LS), Show(e.left, LU), OpTokens(e.op), Show(e.right, LS2);
    AddingSpelling(e.op);
    assert Fits(e, LS) && LeftLevel(e.op, LS) == LU && RightLevel(e.op, LS) == LS2;
  }

  lemma RelationComparisonShape(e: Expr) returns (s: seq<Token>, x: seq<Token>, b: seq<Token>, y: seq<Token>)
    requires Printable(e) && e.BinOp? && IsRelationalOp(e.op)
    ensures Printable(e.left) && Printable(e.right)
    ensures s == Show(e, LR) && x == Show(e.left, LS) && b == OpTokens(e.op) && y == Show(e.right, LR)
    ensures s == x + b + y
    ensures |b| == 1 && RelationalOp(b[0]) == Some(e.op) && !InExt(b[0], LS)
  {
    s, x, b, y := Show(e, LR), Show(e.left, LS), OpTokens(e.op), Show(e.right, LR);
    RelationalSpelling(e.op);
    assert Fits(e, LR) && LeftLevel(e.op, LR) == LS && RightLevel(e.op, LR) == LR;
  }

  lemma ExpressionBooleanShape(e: Expr, lvl: Level) returns (s: seq<Token>, x: seq<Token>, b: seq<Token>, y: seq<Token>)
    requires LevelRank(lvl) >= 7
    requires Printable(e) && e.BinOp? && IsBooleanOp(e.op)
    ensures Printable(e.left) && Printable(e.right)
    ensures s == Show(e, lvl) && x == Show(e.left, LR) && b == OpTokens(e.op) && y == Show(e.right, lvl)
    ensures s == x + b + y
    ensures |b| > 0 && !InExt(b[0], LR)
  {
    s, x, b, y := Show(e, lvl), Show(e.left, LR), OpTokens(e.op), Show(e.right, lvl);
    BooleanSpelling(e.op);
    assert Fits(e, lvl) && LeftLevel(e.op, lvl) == LR && RightLevel(e.op, lvl) == lvl;
  }

  lemma ExpressionBooleanLayout(ts: seq<Token>, pos: nat, e: Expr, lvl: Level) returns (p: nat, q: nat, end: nat)
    requires LevelRank(lvl) >= 7
    requires Printable(e) && e.BinOp? && IsBooleanOp(e.op)
    requires At(ts, pos, Show(e, lvl)) && Stops(ts, pos + |Show(e, lvl)|, lvl)
    ensures Printable(e.left) && Printable(e.right)
    ensures p == pos + |Show(e.left, LR)| && q == p + |OpTokens(e.op)| && end == pos + |Show(e, lvl)|
    ensures Operands(ts, pos, Show(e.left, LR), LR, p, q, Show(e.right, lvl), lvl, end)
    ensures ParseBooleanOp(ts, p) == Match(e.op, q)
  {
    var s, x, b, y := ExpressionBooleanShape(e, lvl);
    p, q, end := pos + |x|, pos + |x| + |b|, pos + |s|;
    InfixAt(ts, pos, s, x, b, y, LR, lvl);
    FirstAt(ts, q, e.right, lvl);
    BooleanAt(ts, p, e.op);
  }

  // ---------------------------------------------------------------------
  // One step of each rule, read off its definition.

  lemma NameSuffixesStop(ts: seq<Token>, base: Expr, p: nat)
    requires p <= |ts| && WellFormed(base) && Stops(ts, p, LP)
    ensures ParseNameSuffixes(ts, base, p) == Match(base, p)
  {
  }

  lemma PrimaryOfLeaf(ts: seq<Token>, pos: nat, e: Expr)
    requires Printable(e) && !e.UnOp? && !e.BinOp? && !e.MembershipExpr?
    requires pos < |ts| && ts[pos] == e.tok && Stops(ts, pos + 1, LP)
    ensures ParsePrimary(ts, pos) == Match(e, pos + 1)
  {
    if e.Identifier? || e.StringLiteral? || e.CharLiteral? {
      NameSuffixesStop(ts, e, pos + 1);
    }
  }

  lemma PrimaryOfParen(ts: seq<Token>, pos: nat, e: Expr, q: nat)
    requires IsSym(ts, pos, LParen) && pos + 1 < |ts| && ShowStart(ts[pos + 1])
    requires ParseExpression(ts, pos + 1) == Match(e, q) && IsSym(ts, q, RParen)
    ensures ParsePrimary(ts, pos) == Match(e, q + 1)
  {
    assert ParseParenthesized(ts, pos) == Match(e, q + 1);
  }

  lemma FactorOfUnary(ts: seq<Token>, pos: nat, op: Op, x: Expr, q: nat)
    requires pos < |ts| && HighestPrecedenceOp(ts[pos]) == Some(op) && ParsePrimary(ts, pos + 1) == Match(x, q)
    ensures ParseFactor(ts, pos) == Match(UnOp(op, x), q)
  {
  }

  lemma FactorOfPow(ts: seq<Token>, pos: nat, l: Expr, p: nat, r: Expr, q: nat)
    requires pos < |ts| && PrimaryStart(ts[pos]) && ParsePrimary(ts, pos) == Match(l, p)
    requires IsSym(ts, p, StarStar) && ParsePrimary(ts, p + 1) == Match(r, q)
    ensures ParseFactor(ts, pos) == Match(BinOp(l, PowOp, r), q)
  {
    assert HighestPrecedenceOp(ts[pos]).None?;
  }

  lemma FactorOfPrimary(ts: seq<Token>, pos: nat, e: Expr, p: nat)
    requires pos < |ts| && PrimaryStart(ts[pos]) && ParsePrimary(ts, pos) == Match(e, p)
    requires Stops(ts, p, LF)
    ensures ParseFactor(ts, pos) == Match(e, p)
  {
    assert HighestPrecedenceOp(ts[pos]).None?;
  }

  lemma TermOfBinary(ts: seq<Token>, pos: nat, l: Expr, p: nat, op: Op, r: Expr, q: nat)
    requires pos <= |ts| && ParseFactor(ts, pos) == Match(l, p)
    requires p < |ts| && MultiplyingOp(ts[p]) == Some(op) && ParseTerm(ts, p + 1) == Match(r, q)
    ensures ParseTerm(ts, pos) == Match(BinOp(l, op, r), q)
  {
  }

  lemma TermOfFactor(ts: seq<Token>, pos: nat, e: Expr, p: nat)
    requires pos <= |ts| && ParseFactor(ts, pos) == Match(e, p) && Stops(ts, p, LT)
    ensures ParseTerm(ts, pos) == Match(e, p)
  {
  }

  lemma UnopTermOfSigned(ts: seq<Token>, pos: nat, op: Op, x: Expr, q: nat)
    requires pos < |ts| && UnaryAddingOp(ts[pos]) == Some(op) && ParseTerm(ts, pos + 1) == Match(x, q)
    ensures ParseUnopTerm(ts, pos) == Match(UnOp(op, x), q)
  {
  }

  lemma UnopTermOfTerm(ts: seq<Token>, pos: nat, e: Expr, p: nat)
    requires pos < |ts| && !IsSign(ts[pos]) && ParseTerm(ts, pos) == Match(e, p)
    ensures ParseUnopTerm(ts, pos) == Match(e, p)
  {
    assert UnaryAddingOp(ts[pos]).None?;
  }

  lemma SimpleExpr2OfBinary(ts: seq<Token>, pos: nat, l: Expr, p: nat, op: Op, r: Expr, q: nat)
    requires pos <= |ts| && ParseTerm(ts, pos) == Match(l, p)
    requires p < |ts| && AddingOp(ts[p]) == Some(op) && ParseSimpleExpr2(ts, p + 1) == Match(r, q)
    ensures ParseSimpleExpr2(ts, pos) == Match(BinOp(l, op, r), q)
  {
  }

  lemma SimpleExpr2OfTerm(ts: seq<Token>, pos: nat, e: Expr, p: nat)
    requires pos <= |ts| && ParseTerm(ts, pos) == Match(e, p) && Stops(ts, p, LS2)
    ensures ParseSimpleExpr2(ts, pos) == Match(e, p)
  {
  }

  lemma SimpleExprOfBinary(ts: seq<Token>, pos: nat, l: Expr, p: nat, op: Op, r: Expr, q: nat)
    requires pos <= |ts| && ParseUnopTerm(ts, pos) == Match(l, p)
    requires p < |ts| && AddingOp(ts[p]) == Some(op) && ParseSimpleExpr2(ts, p + 1) == Match(r, q)
    ensures ParseSimpleExpr(ts, pos) == Match(BinOp(l, op, r), q)
  {
  }

  lemma SimpleExprOfUnopTerm(ts: seq<Token>, pos: nat, e: Expr, p: nat)
    requires pos <= |ts| && ParseUnopTerm(ts, pos) == Match(e, p) && Stops(ts, p, LS)
    ensures ParseSimpleExpr(ts, pos) == Match(e, p)
  {
  }

  lemma RelationOfBinary(ts: seq<Token>, pos: nat, l: Expr, p: nat, op: Op, r: Expr, q: nat)
    requires pos <= |ts| && ParseSimpleExpr(ts, pos) == Match(l, p)
    requires p < |ts| && RelationalOp(ts[p]) == Some(op) && ParseRelation(ts, p + 1) == Match(r, q)
    ensures ParseRelation(ts, pos) == Match(BinOp(l, op, r), q)
  {
  }

  lemma RelationOfMembership(ts: seq<Token>, pos: nat, x: Expr, p: nat, op: Op, p2: nat, cs: seq<Choice>, q: nat)
    requires pos <= |ts| && ParseSimpleExpr(ts, pos) == Match(x, p)
    requires p < |ts| && RelationalOp(ts[p]).None? && ParseRelOp(ts, p) == Match(op, p2)
    requires ParseChoiceList(ts, p2) == Match(cs, q)
    ensures ParseRelation(ts, pos) == Match(MembershipExpr(x, op, cs), q)
  {
  }

  lemma RelationOfSimpleExpr(ts: seq<Token>, pos: nat, e: Expr, p: nat)
    requires pos <= |ts| && ParseSimpleExpr(ts, pos) == Match(e, p) && Stops(ts, p, LR)
    ensures ParseRelation(ts, pos) == Match(e, p)
  {
  }

  lemma ExpressionOfBinary(ts: seq<Token>, pos: nat, l: Expr, p: nat, op: Op, p2: nat, r: Expr, q: nat)
    requires pos <= |ts| && ParseRelation(ts, pos) == Match(l, p)
    requires ParseBooleanOp(ts, p) == Match(op, p2) && ParseExpression(ts, p2) == Match(r, q)
    ensures ParseExpression(ts, pos) == Match(BinOp(l, op, r), q)
  {
  }

  lemma ExpressionOfRelation(ts: seq<Token>, pos: nat, e: Expr, p: nat)
    requires pos <= |ts| && ParseRelation(ts, pos) == Match(e, p) && Stops(ts, p, LC)
    ensures ParseExpression(ts, pos) == Match(e, p)
  {
  }

  lemma ChoiceOfRange(ts: seq<Token>, pos: nat, lo: Expr, p: nat, hi: Expr, q: nat)
    requires pos <= |ts| && ParseExpression(ts, pos) == Match(lo, p)
    requires IsSym(ts, p, DotDot) && ParseExpression(ts, p + 1) == Match(hi, q)
    ensures ParseChoice(ts, pos) == Match(ChoiceExpr(BinOp(lo, EllipsisOp, hi)), q)
  {
    assert ParseDiscreteRange(ts, pos) == Match(BinOp(lo, EllipsisOp, hi), q);
  }

  lemma ChoiceOfExpression(ts: seq<Token>, pos: nat, e: Expr, p: nat)
    requires pos <= |ts| && ParseExpression(ts, pos) == Match(e, p) && !IsSym(ts, p, DotDot)
    ensures ParseChoice(ts, pos) == Match(ChoiceExpr(e), p)
  {
    assert ParseDiscreteRange(ts, pos) == NoMatch;
  }

  lemma ChoiceOfOthers(ts: seq<Token>, pos: nat)
    requires IsSym(ts, pos, KwOthers)
    ensures ParseChoice(ts, pos) == Match(OthersDesignator, pos + 1)
  {
    assert ParseExpression(ts, pos) == NoMatch;
    assert ParseDiscreteRange(ts, pos) == NoMatch;
  }

  lemma ChoiceListOfOne(ts: seq<Token>, pos: nat, c: Choice, p: nat)
    requires pos <= |ts| && ParseChoice(ts, pos) == Match(c, p) && !IsSym(ts, p, Bar)
    ensures ParseChoiceList(ts, pos) == Match([c], p)
  {
  }

  lemma ChoiceListOfMore(ts: seq<Token>, pos: nat, c: Choice, p: nat, cs: seq<Choice>, q: nat)
    requires pos <= |ts| && ParseChoice(ts, pos) == Match(c, p)
    requires IsSym(ts, p, Bar) && ParseChoiceList(ts, p + 1) == Match(cs, q)
    ensures ParseChoiceList(ts, pos) == Match([c] + cs, q)
  {
  }

  // ---------------------------------------------------------------------
  // Parsing what was printed gives back the node, level by level. For each
  // level, `<Level>OfShow` dispatches on the printed node: to the operator
  // node the level builds (`<Level>OfShow<Node>`, which locates the
  // operands and hands them to `<Level>Of<Node>Parts`), or to the level
  // below. The measure is the number of tokens, then the place of the
  // lemma in the ladder.

  lemma {:induction false} PrimaryOfShowLeaf(ts: seq<Token>, pos: nat, e: Expr)
    requires Printable(e) && Fits(e, LP) && At(ts, pos, Show(e, LP)) && Stops(ts, pos + |Show(e, LP)|, LP)
    ensures ParsePrimary(ts, pos) == Match(e, pos + |Show(e, LP)|)
  {
    LeafLayout(ts, pos, e);
    PrimaryOfLeaf(ts, pos, e);
  }

  lemma {:induction false} PrimaryOfShowParen(ts: seq<Token>, pos: nat, e: Expr)
    requires Printable(e) && !Fits(e, LP) && At(ts, pos, Show(e, LP)) && Stops(ts, pos + |Show(e, LP)|, LP)
    ensures ParsePrimary(ts, pos) == Match(e, pos + |Show(e, LP)|)
    decreases |Show(e, LP)|, 1
  {
    var q := pos + 1 + |Show(e, LE)|;
    ParenLayout(ts, pos, e, LP);
    ExpressionOfShow(ts, pos + 1, e, LE);
    PrimaryOfParen(ts, pos, e, q);
  }

  lemma {:induction false} PrimaryOfShow(ts: seq<Token>, pos: nat, e: Expr)
    requires Printable(e) && At(ts, pos, Show(e, LP)) && Stops(ts, pos + |Show(e, LP)|, LP)
    ensures ParsePrimary(ts, pos) == Match(e, pos + |Show(e, LP)|)
    decreases |Show(e, LP)|, 2
  {
    if Fits(e, LP) {
      PrimaryOfShowLeaf(ts, pos, e);
    } else {
      PrimaryOfShowParen(ts, pos, e);
    }
  }

  lemma {:induction false} FactorOfAbsParts(ts: seq<Token>, pos: nat, op: Op, q: nat, x: Expr, end: nat)
    requires pos < |ts| && HighestPrecedenceOp(ts[pos]) == Some(op) && q == pos + 1
    requires Printable(x) && At(ts, q, Show(x, LP)) && end == q + |Show(x, LP)| && Stops(ts, end, LP)
    ensures ParseFactor(ts, pos) == Match(UnOp(op, x), end)
    decreases end - pos, 3
  {
    PrimaryOfShow(ts, q, x);
    FactorOfUnary(ts, pos, op, x, end);
  }

  lemma {:induction false} FactorOfPowParts(ts: seq<Token>, pos: nat, e: Expr, p: nat, q: nat, end: nat)
    requires e.BinOp? && e.op == PowOp && Printable(e.left) && Printable(e.right)
    requires Operands(ts, pos, Show(e.left, LP), LP, p, q, Show(e.right, LP), LP, end) && q == p + 1
    requires PrimaryStart(ts[pos]) && IsSym(ts, p, StarStar)
    ensures ParseFactor(ts, pos) == Match(e, end)
    decreases end - pos, 3
  {
    PrimaryOfShow(ts, pos, e.left);
    PrimaryOfShow(ts, q, e.right);
    FactorOfPow(ts, pos, e.left, p, e.right, end);
  }

  lemma {:induction false} FactorOfShowAbs(ts: seq<Token>, pos: nat, e: Expr)
    requires Printable(e) && e.UnOp? && IsHighestPrecedenceOp(e.op)
    requires At(ts, pos, Show(e, LF)) && Stops(ts, pos + |Show(e, LF)|, LF)
    ensures ParseFactor(ts, pos) == Match(e, pos + |Show(e, LF)|)
    decreases |Show(e, LF)|, 4
  {
    var q, end := UnaryLayout(ts, pos, e, LF, LP);
    UnaryAt(ts, pos, e.op);
    FactorOfAbsParts(ts, pos, e.op, q, e.expr, end);
  }

  lemma FactorPowLayout(ts: seq<Token>, pos: nat, e: Expr) returns (p: nat, q: nat, end: nat)
    requires Printable(e) && e.BinOp? && e.op == PowOp
    requires At(ts, pos, Show(e, LF)) && Stops(ts, pos + |Show(e, LF)|, LF)
    ensures Printable(e.left) && Printable(e.right) && end == pos + |Show(e, LF)|
    ensures q == p + 1
    ensures Operands(ts, pos, Show(e.left, LP), LP, p, q, Show(e.right, LP), LP, end)
    ensures pos < |ts| && PrimaryStart(ts[pos]) && IsSym(ts, p, StarStar)
  {
    var s, x, b, y := FactorPowShape(e);
    p, q, end := pos + |x|, pos + |x| + |b|, pos + |s|;
    StopsMono(ts, end, LF, LP);
    InfixAt(ts, pos, s, x, b, y, LP, LP);
    FirstAt(ts, pos, e.left, LP);
  }

  lemma {:induction false} FactorOfShowPow(ts: seq<Token>, pos: nat, e: Expr)
    requires Printable(e) && e.BinOp? && e.op == PowOp
    requires At(ts, pos, Show(e, LF)) && Stops(ts, pos + |Show(e, LF)|, LF)
    ensures ParseFactor(ts, pos) == Match(e, pos + |Show(e, LF)|)
    decreases |Show(e, LF)|, 4
  {
    var p, q, end := FactorPowLayout(ts, pos, e);
    FactorOfPowParts(ts, pos, e, p, q, end);
  }

  lemma {:induction false} FactorOfShowPrimary(ts: seq<Token>, pos: nat, e: Expr)
    requires Printable(e) && !(e.UnOp? && IsHighestPrecedenceOp(e.op)) && !(e.BinOp? && e.op == PowOp)
    requires At(ts, pos, Show(e, LF)) && Stops(ts, pos + |Show(e, LF)|, LF)
    ensures ParseFactor(ts, pos) == Match(e, pos + |Show(e, LF)|)
    decreases |Show(e, LF)|, 4
  {
    FirstAt(ts, pos, e, LF);
    ShowSame(e, LF, LP);
    PrimaryOfShow(ts, pos, e);
    FactorOfPrimary(ts, pos, e, pos + |Show(e, LF)|);
  }

  lemma {:induction false} FactorOfShow(ts: seq<Token>, pos: nat, e: Expr)
    requires Printable(e) && At(ts, pos, Show(e, LF)) && Stops(ts, pos + |Show(e, LF)|, LF)
    ensures ParseFactor(ts, pos) == Match(e, pos + |Show(e, LF)|)
    decreases |Show(e, LF)|, 5
  {
    if e.UnOp? && IsHighestPrecedenceOp(e.op) {
      FactorOfShowAbs(ts, pos, e);
    } else if e.BinOp? && e.op == PowOp {
      FactorOfShowPow(ts, pos, e);
    } else {
      FactorOfShowPrimary(ts, pos, e);
    }
  }

  lemma {:induction false} TermOfProductParts(ts: seq<Token>, pos: nat, e: Expr, p: nat, q: nat, end: nat)
    requires e.BinOp? && Printable(e.left) && Printable(e.right)
    requires Operands(ts, pos, Show(e.left, LF), LF, p, q, Show(e.right, LT), LT, end) && q == p + 1
    requires p < |ts| && MultiplyingOp(ts[p]) == Some(e.op)
    ensures ParseTerm(ts, pos) == Match(e, end)
    decreases end - pos, 6
  {
    FactorOfShow(ts, pos, e.left);
    TermOfShow(ts, q, e.right);
    TermOfBinary(ts, pos, e.left, p, e.op, e.right, end);
  }

  lemma TermProductLayout(ts: seq<Token>, pos: nat, e: Expr) returns (p: nat, q: nat, end: nat)
    requires Printable(e) && e.BinOp? && IsMultiplyingOp(e.op)
    requires At(ts, pos, Show(e, LT)) && Stops(ts, pos + |Show(e, LT)|, LT)
    ensures Printable(e.left) && Printable(e.right) && end == pos + |Show(e, LT)|
    ensures q == p + 1
    ensures Operands(ts, pos, Show(e.left, LF), LF, p, q, Show(e.right, LT), LT, end)
    ensures p < |ts| && MultiplyingOp(ts[p]) == Some(e.op)
  {
    var s, x, b, y := TermProductShape(e);
    InfixAt(ts, pos, s, x, b, y, LF, LT);
    p, q, end := pos + |x|, pos + |x| + |b|, pos + |s|;
  }

  lemma {:induction false} TermOfShowProduct(ts: seq<Token>, pos: nat, e: Expr)
    requires Printable(e) && e.BinOp? && IsMultiplyingOp(e.op)
    requires At(ts, pos, Show(e, LT)) && Stops(ts, pos + |Show(e, LT)|, LT)
    ensures ParseTerm(ts, pos) == Match(e, pos + |Show(e, LT)|)
    decreases |Show(e, LT)|, 7
  {
    var p, q, end := TermProductLayout(ts, pos, e);
    TermOfProductParts(ts, pos, e, p, q, end);
  }

  lemma {:induction false} TermOfShowFactor(ts: seq<Token>, pos: nat, e: Expr)
    requires Printable(e) && !(e.BinOp? && IsMultiplyingOp(e.op))
    requires At(ts, pos, Show(e, LT)) && Stops(ts, pos + |Show(e, LT)|, LT)
    ensures ParseTerm(ts, pos) == Match(e, pos + |Show(e, LT)|)
    decreases |Show(e, LT)|, 7
  {
    ShowSame(e, LT, LF);
    FactorOfShow(ts, pos, e);
    TermOfFactor(ts, pos, e, pos + |Show(e, LT)|);
  }

  lemma {:induction false} TermOfShow(ts: seq<Token>, pos: nat, e: Expr)
    requires Printable(e) && At(ts, pos, Show(e, LT)) && Stops(ts, pos + |Show(e, LT)|, LT)
    ensures ParseTerm(ts, pos) == Match(e, pos + |Show(e, LT)|)
    decreases |Show(e, LT)|, 8
  {
    if e.BinOp? && IsMultiplyingOp(e.op) {
      TermOfShowProduct(ts, pos, e);
    } else {
      TermOfShowFactor(ts, pos, e);
    }
  }

  lemma {:induction false} UnopTermOfSignedParts(ts: seq<Token>, pos: nat, op: Op, q: nat, x: Expr, end: nat)
    requires pos < |ts| && UnaryAddingOp(ts[pos]) == Some(op) && q == pos + 1
    requires Printable(x) && At(ts, q, Show(x, LT)) && end == q + |Show(x, LT)| && Stops(ts, end, LT)
    ensures ParseUnopTerm(ts, pos) == Match(UnOp(op, x), end)
    decreases end - pos, 9
  {
    TermOfShow(ts, q, x);
    UnopTermOfSigned(ts, pos, op, x, end);
  }

  lemma {:induction false} UnopTermOfShowSigned(ts: seq<Token>, pos: nat, e: Expr)
    requires Printable(e) && e.UnOp? && IsUnaryAddingOp(e.op)
    requires At(ts, pos, Show(e, LU)) && Stops(ts, pos + |Show(e, LU)|, LU)
    ensures ParseUnopTerm(ts, pos) == Match(e, pos + |Show(e, LU)|)
    decreases |Show(e, LU)|, 10
  {
    var q, end := UnaryLayout(ts, pos, e, LU, LT);
    UnaryAt(ts, pos, e.op);
    UnopTermOfSignedParts(ts, pos, e.op, q, e.expr, end);
  }

  lemma {:induction false} UnopTermOfShowTerm(ts: seq<Token>, pos: nat, e: Expr)
    requires Printable(e) && !(e.UnOp? && IsUnaryAddingOp(e.op))
    requires At(ts, pos, Show(e, LU)) && Stops(ts, pos + |Show(e, LU)|, LU)
    ensures ParseUnopTerm(ts, pos) == Match(e, pos + |Show(e, LU)|)
    decreases |Show(e, LU)|, 10
  {
    FirstAt(ts, pos, e, LU);
    ShowSame(e, LU, LT);
    TermOfShow(ts, pos, e);
    UnopTermOfTerm(ts, pos, e, pos + |Show(e, LU)|);
  }

  lemma {:induction false} UnopTermOfShow(ts: seq<Token>, pos: nat, e: Expr)
    requires Printable(e) && At(ts, pos, Show(e, LU)) && Stops(ts, pos + |Show(e, LU)|, LU)
    ensures ParseUnopTerm(ts, pos) == Match(e, pos + |Show(e, LU)|)
    decreases |Show(e, LU)|, 11
  {
    if e.UnOp? && IsUnaryAddingOp(e.op) {
      UnopTermOfShowSigned(ts, pos, e);
    } else {
      UnopTermOfShowTerm(ts, pos, e);
    }
  }

  lemma {:induction false} SimpleExpr2OfSumParts(ts: seq<Token>, pos: nat, e: Expr, p: nat, q: nat, end: nat)
    requires e.BinOp? && Printable(e.left) && Printable(e.right)
    requires Operands(ts, pos, Show(e.left, LT), LT, p, q, Show(e.right, LS2), LS2, end) && q == p + 1
    requires p < |ts| && AddingOp(ts[p]) == Some(e.op)
    ensures ParseSimpleExpr2(ts, pos) == Match(e, end)
    decreases end - pos, 12
  {
    TermOfShow(ts, pos, e.left);
    SimpleExpr2OfShow(ts, q, e.right);
    SimpleExpr2OfBinary(ts, pos, e.left, p, e.op, e.right, end);
  }

  lemma SimpleExpr2SumLayout(ts: seq<Token>, pos: nat, e: Expr) returns (p: nat, q: nat, end: nat)
    requires Printable(e) && e.BinOp? && IsAddingOp(e.op)
    requires At(ts, pos, Show(e, LS2)) && Stops(ts, pos + |Show(e, LS2)|, LS2)
    ensures Printable(e.left) && Printable(e.right) && end == pos + |Show(e, LS2)|
    ensures q == p + 1
    ensures Operands(ts, pos, Show(e.left, LT), LT, p, q, Show(e.right, LS2), LS2, end)
    ensures p < |ts| && AddingOp(ts[p]) == Some(e.op)
  {
    var s, x, b, y := SimpleExpr2SumShape(e);
    InfixAt(ts, pos, s, x, b, y, LT, LS2);
    p, q, end := pos + |x|, pos + |x| + |b|, pos + |s|;
  }

  lemma {:induction false} SimpleExpr2OfShowSum(ts: seq<Token>, pos: nat, e: Expr)
    requires Printable(e) && e.BinOp? && IsAddingOp(e.op)
    requires At(ts, pos, Show(e, LS2)) && Stops(ts, pos + |Show(e, LS2)|, LS2)
    ensures ParseSimpleExpr2(ts, pos) == Match(e, pos + |Show(e, LS2)|)
    decreases |Show(e, LS2)|, 13
  {
    var p, q, end := SimpleExpr2SumLayout(ts, pos, e);
    SimpleExpr2OfSumParts(ts, pos, e, p, q, end);
  }

  lemma {:induction false} SimpleExpr2OfShowTerm(ts: seq<Token>, pos: nat, e: Expr)
    requires Printable(e) && !(e.BinOp? && IsAddingOp(e.op))
    requires At(ts, pos, Show(e, LS2)) && Stops(ts, pos + |Show(e, LS2)|, LS2)
    ensures ParseSimpleExpr2(ts, pos) == Match(e, pos + |Show(e, LS2)|)
    decreases |Show(e, LS2)|, 13
  {
    ShowSame(e, LS2, LT);
    TermOfShow(ts, pos, e);
    SimpleExpr2OfTerm(ts, pos, e, pos + |Show(e, LS2)|);
  }

  lemma {:induction false} SimpleExpr2OfShow(ts: seq<Token>, pos: nat, e: Expr)
    requires Printable(e) && At(ts, pos, Show(e, LS2)) && Stops(ts, pos + |Show(e, LS2)|, LS2)
    ensures ParseSimpleExpr2(ts, pos) == Match(e, pos + |Show(e, LS2)|)
    decreases |Show(e, LS2)|, 14
  {
    if e.BinOp? && IsAddingOp(e.op) {
      SimpleExpr2OfShowSum(ts, pos, e);
    } else {
      SimpleExpr2OfShowTerm(ts, pos, e);
    }
  }

  lemma {:induction false} SimpleExprOfSumParts(ts: seq<Token>, pos: nat, e: Expr, p: nat, q: nat, end: nat)
    requires e.BinOp? && Printable(e.left) && Printable(e.right)
    requires Operands(ts, pos, Show(e.left, LU), LU, p, q, Show(e.right, LS2), LS2, end) && q == p + 1
    requires p < |ts| && AddingOp(ts[p]) == Some(e.op)
    ensures ParseSimpleExpr(ts, pos) == Match(e, end)
    decreases end - pos, 15
  {
    UnopTermOfShow(ts, pos, e.left);
    SimpleExpr2OfShow(ts, q, e.right);
    SimpleExprOfBinary(ts, pos, e.left, p, e.op, e.right, end);
  }

  lemma SimpleExprSumLayout(ts: seq<Token>, pos: nat, e: Expr) returns (p: nat, q: nat, end: nat)
    requires Printable(e) && e.BinOp? && IsAddingOp(e.op)
    requires At(ts, pos, Show(e, LS)) && Stops(ts, pos + |Show(e, LS)|, LS)
    ensures Printable(e.left) && Printable(e.right) && end == pos + |Show(e, LS)|
    ensures q == p + 1
    ensures Operands(ts, pos, Show(e.left, LU), LU, p, q, Show(e.right, LS2), LS2, end)
    ensures p < |ts| && AddingOp(ts[p]) == Some(e.op)
  {
    var s, x, b, y := SimpleExprSumShape(e);
    p, q, end := pos + |x|, pos + |x| + |b|, pos + |s|;
    StopsMono(ts, end, LS, LS2);
    InfixAt(ts, pos, s, x, b, y, LU, LS2);
  }

  lemma {:induction false} SimpleExprOfShowSum(ts: seq<Token>, pos: nat, e: Expr)
    requires Printable(e) && e.BinOp? && IsAddingOp(e.op)
    requires At(ts, pos, Show(e, LS)) && Stops(ts, pos + |Show(e, LS)|, LS)
    ensures ParseSimpleExpr(ts, pos) == Match(e, pos + |Show(e, LS)|)
    decreases |Show(e, LS)|, 16
  {
    var p, q, end := SimpleExprSumLayout(ts, pos, e);
    SimpleExprOfSumParts(ts, pos, e, p, q, end);
  }

  lemma {:induction false} SimpleExprOfShowUnopTerm(ts: seq<Token>, pos: nat, e: Expr)
    requires Printable(e) && !(e.BinOp? && IsAddingOp(e.op))
    requires At(ts, pos, Show(e, LS)) && Stops(ts, pos + |Show(e, LS)|, LS)
    ensures ParseSimpleExpr(ts, pos) == Match(e, pos + |Show(e, LS)|)
    decreases |Show(e, LS)|, 16
  {
    ShowSame(e, LS, LU);
    UnopTermOfShow(ts, pos, e);
    SimpleExprOfUnopTerm(ts, pos, e, pos + |Show(e, LS)|);
  }

  lemma {:induction false} SimpleExprOfShow(ts: seq<Token>, pos: nat, e: Expr)
    requires Printable(e) && At(ts, pos, Show(e, LS)) && Stops(ts, pos + |Show(e, LS)|, LS)
    ensures ParseSimpleExpr(ts, pos) == Match(e, pos + |Show(e, LS)|)
    decreases |Show(e, LS)|, 17
  {
    if e.BinOp? && IsAddingOp(e.op) {
      SimpleExprOfShowSum(ts, pos, e);
    } else {
      SimpleExprOfShowUnopTerm(ts, pos, e);
    }
  }

  lemma {:induction false} RelationOfComparisonParts(ts: seq<Token>, pos: nat, e: Expr, p: nat, q: nat, end: nat)
    requires e.BinOp? && Printable(e.left) && Printable(e.right)
    requires Operands(ts, pos, Show(e.left, LS), LS, p, q, Show(e.right, LR), LR, end) && q == p + 1
    requires p < |ts| && RelationalOp(ts[p]) == Some(e.op)
    ensures ParseRelation(ts, pos) == Match(e, end)
    decreases end - pos, 18
  {
    SimpleExprOfShow(ts, pos, e.left);
    RelationOfShow(ts, q, e.right);
    RelationOfBinary(ts, pos, e.left, p, e.op, e.right, end);
  }

  lemma RelationComparisonLayout(ts: seq<Token>, pos: nat, e: Expr) returns (p: nat, q: nat, end: nat)
    requires Printable(e) && e.BinOp? && IsRelationalOp(e.op)
    requires At(ts, pos, Show(e, LR)) && Stops(ts, pos + |Show(e, LR)|, LR)
    ensures Printable(e.left) && Printable(e.right) && end == pos + |Show(e, LR)|
    ensures q == p + 1
    ensures Operands(ts, pos, Show(e.left, LS), LS, p, q, Show(e.right, LR), LR, end)
    ensures p < |ts| && RelationalOp(ts[p]) == Some(e.op)
  {
    var s, x, b, y := RelationComparisonShape(e);
    InfixAt(ts, pos, s, x, b, y, LS, LR);
    p, q, end := pos + |x|, pos + |x| + |b|, pos + |s|;
  }

  lemma {:induction false} RelationOfShowComparison(ts: seq<Token>, pos: nat, e: Expr)
    requires Printable(e) && e.BinOp? && IsRelationalOp(e.op)
    requires At(ts, pos, Show(e, LR)) && Stops(ts, pos + |Show(e, LR)|, LR)
    ensures ParseRelation(ts, pos) == Match(e, pos + |Show(e, LR)|)
    decreases |Show(e, LR)|, 19
  {
    var p, q, end := RelationComparisonLayout(ts, pos, e);
    RelationOfComparisonParts(ts, pos, e, p, q, end);
  }

  lemma {:induction false} RelationOfShowSimpleExpr(ts: seq<Token>, pos: nat, e: Expr)
    requires Printable(e) && !(e.BinOp? && IsRelationalOp(e.op))
    requires At(ts, pos, Show(e, LR)) && Stops(ts, pos + |Show(e, LR)|, LR)
    ensures ParseRelation(ts, pos) == Match(e, pos + |Show(e, LR)|)
    decreases |Show(e, LR)|, 19
  {
    ShowSame(e, LR, LS);
    SimpleExprOfShow(ts, pos, e);
    RelationOfSimpleExpr(ts, pos, e, pos + |Show(e, LR)|);
  }

  lemma {:induction false} RelationOfShow(ts: seq<Token>, pos: nat, e: Expr)
    requires Printable(e) && At(ts, pos, Show(e, LR)) && Stops(ts, pos + |Show(e, LR)|, LR)
    ensures ParseRelation(ts, pos) == Match(e, pos + |Show(e, LR)|)
    decreases |Show(e, LR)|, 20
  {
    if e.BinOp? && IsRelationalOp(e.op) {
      RelationOfShowComparison(ts, pos, e);
    } else {
      RelationOfShowSimpleExpr(ts, pos, e);
    }
  }

  lemma {:induction false} MembershipOfParts(ts: seq<Token>, pos: nat, x: Expr, op: Op, p: nat, q: nat, cs: seq<Choice>, end: nat)
    requires Printable(x) && At(ts, pos, Show(x, LS)) && p == pos + |Show(x, LS)| && Stops(ts, p, LS)
    requires p < |ts| && RelationalOp(ts[p]).None? && ParseRelOp(ts, p) == Match(op, q)
    requires |cs| > 0 && forall c <- cs :: PrintableChoice(c)
    requires At(ts, q, ShowChoices(cs)) && end == q + |ShowChoices(cs)| && Stops(ts, end, LE)
    ensures ParseRelation(ts, pos) == Match(MembershipExpr(x, op, cs), end)
    decreases end - pos, 21
  {
    SimpleExprOfShow(ts, pos, x);
    ChoiceListOfShow(ts, q, cs);
    RelationOfMembership(ts, pos, x, p, op, q, cs, end);
  }

  /** A membership expression shown at the expression level is one relation. */
  lemma {:induction false} MembershipOfShow(ts: seq<Token>, pos: nat, e: Expr)
    requires Printable(e) && e.MembershipExpr?
    requires At(ts, pos, Show(e, LE)) && Stops(ts, pos + |Show(e, LE)|, LE)
    ensures ParseRelation(ts, pos) == Match(e, pos + |Show(e, LE)|)
    decreases |Show(e, LE)|, 22
  {
    var p, q, end := MembershipLayout(ts, pos, e);
    MembershipOfParts(ts, pos, e.expr, e.op, p, q, e.membershipExprs, end);
  }

  lemma {:induction false} ExpressionOfBooleanParts(ts: seq<Token>, pos: nat, e: Expr, p: nat, q: nat, end: nat, lvl: Level)
    requires LevelRank(lvl) >= 7
    requires e.BinOp? && Printable(e.left) && Printable(e.right)
    requires Operands(ts, pos, Show(e.left, LR), LR, p, q, Show(e.right, lvl), lvl, end)
    requires ParseBooleanOp(ts, p) == Match(e.op, q)
    ensures ParseExpression(ts, pos) == Match(e, end)
    decreases end - pos, 23
  {
    RelationOfShow(ts, pos, e.left);
    ExpressionOfShow(ts, q, e.right, lvl);
    ExpressionOfBinary(ts, pos, e.left, p, e.op, q, e.right, end);
    assert BinOp(e.left, e.op, e.right) == e;
  }

  lemma {:induction false} ExpressionOfShowBoolean(ts: seq<Token>, pos: nat, e: Expr, lvl: Level)
    requires LevelRank(lvl) >= 7
    requires Printable(e) && e.BinOp? && IsBooleanOp(e.op)
    requires At(ts, pos, Show(e, lvl)) && Stops(ts, pos + |Show(e, lvl)|, lvl)
    ensures ParseExpression(ts, pos) == Match(e, pos + |Show(e, lvl)|)
    decreases |Show(e, lvl)|, 24
  {
    var p, q, end := ExpressionBooleanLayout(ts, pos, e, lvl);
    ExpressionOfBooleanParts(ts, pos, e, p, q, end, lvl);
  }

  lemma {:induction false} ExpressionOfShowMembership(ts: seq<Token>, pos: nat, e: Expr)
    requires Printable(e) && e.MembershipExpr?
    requires At(ts, pos, Show(e, LE)) && Stops(ts, pos + |Show(e, LE)|, LE)
    ensures ParseExpression(ts, pos) == Match(e, pos + |Show(e, LE)|)
    decreases |Show(e, LE)|, 24
  {
    MembershipOfShow(ts, pos, e);
    StopsMono(ts, pos + |Show(e, LE)|, LE, LC);
    ExpressionOfRelation(ts, pos, e, pos + |Show(e, LE)|);
  }

  /** Below the boolean operators, and without a membership expression at the
      choice level, an expression is shown as a relation. */
  lemma RelationLayout(ts: seq<Token>, pos: nat, e: Expr, lvl: Level)
    requires LevelRank(lvl) >= 7
    requires Printable(e) && !(e.BinOp? && IsBooleanOp(e.op)) && !(e.MembershipExpr? && lvl == LE)
    requires At(ts, pos, Show(e, lvl)) && Stops(ts, pos + |Show(e, lvl)|, lvl)
    ensures Show(e, lvl) == Show(e, LR)
    ensures At(ts, pos, Show(e, LR)) && Stops(ts, pos + |Show(e, LR)|, LC)
  {
    ShowSame(e, lvl, LR);
    StopsMono(ts, pos + |Show(e, lvl)|, lvl, LC);
  }

  lemma {:induction false} ExpressionOfShowRelation(ts: seq<Token>, pos: nat, e: Expr)
    requires Printable(e) && !(e.BinOp? && IsBooleanOp(e.op))
    requires At(ts, pos, Show(e, LR)) && Stops(ts, pos + |Show(e, LR)|, LC)
    ensures ParseExpression(ts, pos) == Match(e, pos + |Show(e, LR)|)
    decreases |Show(e, LR)|, 24
  {
    var end := pos + |Show(e, LR)|;
    StopsMono(ts, end, LC, LR);
    RelationOfShow(ts, pos, e);
    ExpressionOfRelation(ts, pos, e, end);
  }

  lemma {:induction false} ExpressionOfShow(ts: seq<Token>, pos: nat, e: Expr, lvl: Level)
    requires LevelRank(lvl) >= 7
    requires Printable(e) && At(ts, pos, Show(e, lvl)) && Stops(ts, pos + |Show(e, lvl)|, lvl)
    ensures ParseExpression(ts, pos) == Match(e, pos + |Show(e, lvl)|)
    decreases |Show(e, lvl)|, 25
  {
    if e.BinOp? && IsBooleanOp(e.op) {
      ExpressionOfShowBoolean(ts, pos, e, lvl);
    } else if e.MembershipExpr? && lvl == LE {
      ExpressionOfShowMembership(ts, pos, e);
    } else {
      RelationLayout(ts, pos, e, lvl);
      ExpressionOfShowRelation(ts, pos, e);
    }
  }

  lemma {:induction false} ChoiceOfRangeParts(ts: seq<Token>, pos: nat, c: Choice, p: nat, q: nat, end: nat)
    requires c.ChoiceExpr? && IsRange(c.expr) && Printable(c.expr.left) && Printable(c.expr.right)
    requires Operands(ts, pos, Show(c.expr.left, LC), LC, p, q, Show(c.expr.right, LC), LC, end)
    requires q == p + 1 && IsSym(ts, p, DotDot)
    ensures ParseChoice(ts, pos) == Match(c, end)
    decreases end - pos, 26
  {
    var lo, hi := c.expr.left, c.expr.right;
    ExpressionOfShow(ts, pos, lo, LC);
    ExpressionOfShow(ts, q, hi, LC);
    ChoiceOfRange(ts, pos, lo, p, hi, end);
    assert c == ChoiceExpr(BinOp(lo, EllipsisOp, hi));
  }

  lemma RangeLayout(ts: seq<Token>, pos: nat, c: Choice) returns (p: nat, q: nat, end: nat)
    requires PrintableChoice(c) && c.ChoiceExpr? && IsRange(c.expr)
    requires At(ts, pos, ShowChoice(c)) && ChoiceStops(ts, pos + |ShowChoice(c)|)
    ensures Printable(c.expr.left) && Printable(c.expr.right) && end == pos + |ShowChoice(c)|
    ensures q == p + 1
    ensures Operands(ts, pos, Show(c.expr.left, LC), LC, p, q, Show(c.expr.right, LC), LC, end)
    ensures IsSym(ts, p, DotDot)
  {
    var s, x, b, y := RangeShape(c);
    InfixAt(ts, pos, s, x, b, y, LC, LC);
    p, q, end := pos + |x|, pos + |x| + |b|, pos + |s|;
  }

  lemma {:induction false} ChoiceOfShowRange(ts: seq<Token>, pos: nat, c: Choice)
    requires PrintableChoice(c) && c.ChoiceExpr? && IsRange(c.expr)
    requires At(ts, pos, ShowChoice(c)) && ChoiceStops(ts, pos + |ShowChoice(c)|)
    ensures ParseChoice(ts, pos) == Match(c, pos + |ShowChoice(c)|)
    decreases |ShowChoice(c)|, 27
  {
    var p, q, end := RangeLayout(ts, pos, c);
    ChoiceOfRangeParts(ts, pos, c, p, q, end);
  }

  lemma {:induction false} ChoiceOfShowExpression(ts: seq<Token>, pos: nat, c: Choice)
    requires PrintableChoice(c) && c.ChoiceExpr? && !IsRange(c.expr)
    requires At(ts, pos, ShowChoice(c)) && ChoiceStops(ts, pos + |ShowChoice(c)|)
    ensures ParseChoice(ts, pos) == Match(c, pos + |ShowChoice(c)|)
    decreases |ShowChoice(c)|, 27
  {
    assert ShowChoice(c) == Show(c.expr, LC);
    ExpressionOfShow(ts, pos, c.expr, LC);
    ChoiceOfExpression(ts, pos, c.expr, pos + |ShowChoice(c)|);
  }

  lemma {:induction false} ChoiceOfShow(ts: seq<Token>, pos: nat, c: Choice)
    requires PrintableChoice(c) && At(ts, pos, ShowChoice(c)) && ChoiceStops(ts, pos + |ShowChoice(c)|)
    ensures ParseChoice(ts, pos) == Match(c, pos + |ShowChoice(c)|)
    decreases |ShowChoice(c)|, 28
  {
    if c.OthersDesignator? {
      AtHead(ts, pos, ShowChoice(c));
      ChoiceOfOthers(ts, pos);
    } else if IsRange(c.expr) {
      ChoiceOfShowRange(ts, pos, c);
    } else {
      ChoiceOfShowExpression(ts, pos, c);
    }
  }

  lemma {:induction false} ChoiceListOfMoreParts(ts: seq<Token>, pos: nat, c: Choice, p: nat, q: nat, cs: seq<Choice>, end: nat)
    requires PrintableChoice(c) && At(ts, pos, ShowChoice(c)) && p == pos + |ShowChoice(c)|
    requires ChoiceStops(ts, p) && IsSym(ts, p, Bar) && q == p + 1
    requires |cs| > 0 && forall c <- cs :: PrintableChoice(c)
    requires At(ts, q, ShowChoices(cs)) && end == q + |ShowChoices(cs)| && Stops(ts, end, LE)
    ensures ParseChoiceList(ts, pos) == Match([c] + cs, end)
    decreases end - pos, 29
  {
    ChoiceOfShow(ts, pos, c);
    ChoiceListOfShow(ts, q, cs);
    ChoiceListOfMore(ts, pos, c, p, cs, end);
  }

  lemma {:induction false} ChoiceListOfShowMore(ts: seq<Token>, pos: nat, cs: seq<Choice>)
    requires |cs| > 1 && forall c <- cs :: PrintableChoice(c)
    requires At(ts, pos, ShowChoices(cs)) && Stops(ts, pos + |ShowChoices(cs)|, LE)
    ensures ParseChoiceList(ts, pos) == Match(cs, pos + |ShowChoices(cs)|)
    decreases |ShowChoices(cs)|, 30
  {
    var p, end := ChoicesLayout(ts, pos, cs);
    ChoiceListOfMoreParts(ts, pos, cs[0], p, p + 1, cs[1..], end);
    assert [cs[0]] + cs[1..] == cs;
  }

  lemma {:induction false} ChoiceListOfShowOne(ts: seq<Token>, pos: nat, cs: seq<Choice>)
    requires |cs| == 1 && PrintableChoice(cs[0])
    requires At(ts, pos, ShowChoices(cs)) && Stops(ts, pos + |ShowChoices(cs)|, LE)
    ensures ParseChoiceList(ts, pos) == Match(cs, pos + |ShowChoices(cs)|)
    decreases |ShowChoices(cs)|, 30
  {
    assert ShowChoices(cs) == ShowChoice(cs[0]);
    ChoiceOfShow(ts, pos, cs[0]);
    ChoiceListOfOne(ts, pos, cs[0], pos + |ShowChoices(cs)|);
    assert [cs[0]] == cs;
  }

  lemma {:induction false} ChoiceListOfShow(ts: seq<Token>, pos: nat, cs: seq<Choice>)
    requires |cs| > 0 && forall c <- cs :: PrintableChoice(c)
    requires At(ts, pos, ShowChoices(cs)) && Stops(ts, pos + |ShowChoices(cs)|, LE)
    ensures ParseChoiceList(ts, pos) == Match(cs, pos + |ShowChoices(cs)|)
    decreases |ShowChoices(cs)|, 31
  {
    if |cs| == 1 {
      ChoiceListOfShowOne(ts, pos, cs);
    } else {
      ChoiceListOfShowMore(ts, pos, cs);
    }
  }

  // ---------------------------------------------------------------------
  // The theorem and what follows from it

  /** Parsing the printed form of any operator expression gives it back and
      consumes every token. */
  lemma ParseOfShow(e: Expr)
    requires Printable(e)
    ensures ParseExpression(Show(e, LE), 0) == Match(e, |Show(e, LE)|)
  {
    var ts := Show(e, LE);
    AtSuffix(ts, 0);
    assert ts[0..] == ts;
    ExpressionOfShow(ts, 0, e, LE);
  }

  /** The printed form is unambiguous: two expressions that print alike are
      the same expression. */
  lemma ShowInjective(e1: Expr, e2: Expr)
    requires Printable(e1) && Printable(e2) && Show(e1, LE) == Show(e2, LE)
    ensures e1 == e2
  {
    ParseOfShow(e1);
    ParseOfShow(e2);
  }
}
