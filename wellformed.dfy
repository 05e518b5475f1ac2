/** Every rule of the grammar builds well-formed nodes (exprs.py:10-255 and
    257-459): operators of the class the rule's level allows, leaves holding
    tokens of the kind their rule matches, and non-empty lists wherever the
    rule uses a non-empty `List`.

    The lemmas follow the rules' own structure, one lemma per rule, by the
    rules' termination measure: each lemma calls the lemma of every sub-rule
    its rule tries. */
module WellFormedness {
  import opened Tokens
  import opened Ast
  import opened Grammar

  // ---------------------------------------------------------------------
  // The precedence ladder

  lemma {:induction false} ExpressionWellFormed(ts: seq<Token>, pos: nat)
    requires pos <= |ts|
    ensures ParseExpression(ts, pos).Match? ==> WellFormed(ParseExpression(ts, pos).node)
    decreases |ts| - pos, 11
  {
    RelationWellFormed(ts, pos);
    match ParseRelation(ts, pos)
    case NoMatch =>
    case Match(_, p) =>
      var op := ParseBooleanOp(ts, p);
      if op.Match? {
        ExpressionWellFormed(ts, op.next);
      }
  }

  lemma {:induction false} RelationWellFormed(ts: seq<Token>, pos: nat)
    requires pos <= |ts|
    ensures ParseRelation(ts, pos).Match? ==> WellFormed(ParseRelation(ts, pos).node)
    decreases |ts| - pos, 10
  {
    SimpleExprWellFormed(ts, pos);
    match ParseSimpleExpr(ts, pos)
    case NoMatch =>
    case Match(_, p) =>
      if p < |ts| && RelationalOp(ts[p]).Some? {
        RelationWellFormed(ts, p + 1);
      }
      var mem := ParseRelOp(ts, p);
      if mem.Match? {
        ChoiceListWellFormed(ts, mem.next);
      }
  }

  lemma {:induction false} SimpleExprWellFormed(ts: seq<Token>, pos: nat)
    requires pos <= |ts|
    ensures ParseSimpleExpr(ts, pos).Match? ==> WellFormed(ParseSimpleExpr(ts, pos).node)
    decreases |ts| - pos, 9
  {
    UnopTermWellFormed(ts, pos);
    match ParseUnopTerm(ts, pos)
    case NoMatch =>
    case Match(_, p) =>
      if p < |ts| && AddingOp(ts[p]).Some? {
        SimpleExpr2WellFormed(ts, p + 1);
      }
  }

  lemma {:induction false} SimpleExpr2WellFormed(ts: seq<Token>, pos: nat)
    requires pos <= |ts|
    ensures ParseSimpleExpr2(ts, pos).Match? ==> WellFormed(ParseSimpleExpr2(ts, pos).node)
    decreases |ts| - pos, 8
  {
    TermWellFormed(ts, pos);
    match ParseTerm(ts, pos)
    case NoMatch =>
    case Match(left, p) =>
      if p < |ts| && AddingOp(ts[p]).Some? {
        SimpleExpr2WellFormed(ts, p + 1);
        match ParseSimpleExpr2(ts, p + 1)
        case NoMatch =>
        case Match(right, _) => BinNodeWellFormed(left, AddingOp(ts[p]).value, right);
      }
  }

  lemma {:induction false} UnopTermWellFormed(ts: seq<Token>, pos: nat)
    requires pos <= |ts|
    ensures ParseUnopTerm(ts, pos).Match? ==> WellFormed(ParseUnopTerm(ts, pos).node)
    decreases |ts| - pos, 8
  {
    if pos < |ts| && UnaryAddingOp(ts[pos]).Some? {
      TermWellFormed(ts, pos + 1);
    }
    TermWellFormed(ts, pos);
  }

  lemma {:induction false} TermWellFormed(ts: seq<Token>, pos: nat)
    requires pos <= |ts|
    ensures ParseTerm(ts, pos).Match? ==> WellFormed(ParseTerm(ts, pos).node)
    decreases |ts| - pos, 7
  {
    FactorWellFormed(ts, pos);
    match ParseFactor(ts, pos)
    case NoMatch =>
    case Match(left, p) =>
      if p < |ts| && MultiplyingOp(ts[p]).Some? {
        TermWellFormed(ts, p + 1);
        match ParseTerm(ts, p + 1)
        case NoMatch =>
        case Match(right, _) => BinNodeWellFormed(left, MultiplyingOp(ts[p]).value, right);
      }
  }

  lemma {:induction false} FactorWellFormed(ts: seq<Token>, pos: nat)
    requires pos <= |ts|
    ensures ParseFactor(ts, pos).Match? ==> WellFormed(ParseFactor(ts, pos).node)
    decreases |ts| - pos, 6
  {
    if pos < |ts| && HighestPrecedenceOp(ts[pos]).Some? {
      PrimaryWellFormed(ts, pos + 1);
    }
    PrimaryWellFormed(ts, pos);
    match ParsePrimary(ts, pos)
    case NoMatch =>
    case Match(_, p) =>
      if IsSym(ts, p, StarStar) {
        PrimaryWellFormed(ts, p + 1);
      }
  }

  lemma {:induction false} PrimaryWellFormed(ts: seq<Token>, pos: nat)
    requires pos <= |ts|
    ensures ParsePrimary(ts, pos).Match? ==> WellFormed(ParsePrimary(ts, pos).node)
    decreases |ts| - pos, 5
  {
    NameWellFormed(ts, pos);
    AllocatorWellFormed(ts, pos);
    ConditionalExpressionWellFormed(ts, pos);
    RaiseExpressionWellFormed(ts, pos);
    ParenthesizedWellFormed(ts, pos);
    AggregateWellFormed(ts, pos);
  }

  lemma {:induction false} ParenthesizedWellFormed(ts: seq<Token>, pos: nat)
    requires pos <= |ts|
    ensures ParseParenthesized(ts, pos).Match? ==> WellFormed(ParseParenthesized(ts, pos).node)
    decreases |ts| - pos, 1
  {
    if IsSym(ts, pos, LParen) {
      ConditionalExpressionWellFormed(ts, pos + 1);
      ExpressionWellFormed(ts, pos + 1);
    }
  }

  // ---------------------------------------------------------------------
  // Ranges and choices

  lemma {:induction false} DiscreteRangeWellFormed(ts: seq<Token>, pos: nat)
    requires pos <= |ts|
    ensures ParseDiscreteRange(ts, pos).Match? ==> WellFormed(ParseDiscreteRange(ts, pos).node)
    decreases |ts| - pos, 12
  {
    ExpressionWellFormed(ts, pos);
    match ParseExpression(ts, pos)
    case NoMatch =>
    case Match(low, p) =>
      if IsSym(ts, p, DotDot) {
        ExpressionWellFormed(ts, p + 1);
        match ParseExpression(ts, p + 1)
        case NoMatch =>
        case Match(high, _) =>
          RangeNodeWellFormed(low, high);
      }
  }

  lemma BinNodeWellFormed(left: Expr, op: Op, right: Expr)
    requires IsBinaryOp(op) && WellFormed(left) && WellFormed(right)
    ensures WellFormed(BinOp(left, op, right))
  {
  }

  lemma RangeNodeWellFormed(low: Expr, high: Expr)
    requires WellFormed(low) && WellFormed(high)
    ensures WellFormed(BinOp(low, EllipsisOp, high))
  {
  }

  lemma {:induction false} ParsedChoiceWellFormed(ts: seq<Token>, pos: nat)
    requires pos <= |ts|
    ensures ParseChoice(ts, pos).Match? ==> ChoiceWellFormed(ParseChoice(ts, pos).node)
    decreases |ts| - pos, 14
  {
    DiscreteRangeWellFormed(ts, pos);
    ExpressionWellFormed(ts, pos);
  }

  lemma {:induction false} ChoiceListWellFormed(ts: seq<Token>, pos: nat)
    requires pos <= |ts|
    ensures var r := ParseChoiceList(ts, pos);
      r.Match? ==> |r.node| > 0 && forall c <- r.node :: ChoiceWellFormed(c)
    decreases |ts| - pos, 15
  {
    ParsedChoiceWellFormed(ts, pos);
    match ParseChoice(ts, pos)
    case NoMatch =>
    case Match(_, p) =>
      if IsSym(ts, p, Bar) {
        ChoiceListWellFormed(ts, p + 1);
      }
  }

  // ---------------------------------------------------------------------
  // Names

  lemma {:induction false} NameWellFormed(ts: seq<Token>, pos: nat)
    requires pos <= |ts|
    ensures ParseName(ts, pos).Match? ==> WellFormed(ParseName(ts, pos).node)
    decreases |ts| - pos, 4
  {
    match ParseDirectName(ts, pos)
    case NoMatch =>
    case Match(d, p) => NameSuffixesWellFormed(ts, d, p);
  }

  lemma {:induction false} NameSuffixesWellFormed(ts: seq<Token>, base: Expr, pos: nat)
    requires pos <= |ts| && WellFormed(base)
    ensures WellFormed(ParseNameSuffixes(ts, base, pos).node)
    decreases |ts| - pos, 3
  {
    CallArgumentsWellFormed(ts, pos);
    var call := ParseCallArguments(ts, pos);
    if call.Match? {
      NameSuffixesWellFormed(ts, CallExpr(base, call.node), call.next);
      return;
    }
    var selected: Parsed<Expr> := if IsSym(ts, pos, Dot) then ParseDirectName(ts, pos + 1) else NoMatch;
    if selected.Match? {
      NameSuffixesWellFormed(ts, Prefix(base, selected.node), selected.next);
      return;
    }
    var attr: Parsed<Expr> := if IsSym(ts, pos, Tick) then ParseAttribute(ts, pos + 1) else NoMatch;
    if attr.Match? {
      CallArgumentsWellFormed(ts, attr.next);
      var args := ParseCallArguments(ts, attr.next);
      if args.Match? {
        NameSuffixesWellFormed(ts, AttributeRef(base, attr.node, Some(args.node)), args.next);
      } else {
        NameSuffixesWellFormed(ts, AttributeRef(base, attr.node, None), attr.next);
      }
      return;
    }
    if IsSym(ts, pos, Tick) {
      QualifiedOperandWellFormed(ts, pos + 1);
      var qual := ParseQualifiedOperand(ts, pos + 1);
      if qual.Match? {
        NameSuffixesWellFormed(ts, QualExpr(base, qual.node), qual.next);
      }
    }
  }

  lemma {:induction false} CallArgumentsWellFormed(ts: seq<Token>, pos: nat)
    requires pos <= |ts|
    ensures ParseCallArguments(ts, pos).Match? ==> CallSuffixWellFormed(ParseCallArguments(ts, pos).node)
    decreases |ts| - pos, 1
  {
    if IsSym(ts, pos, LParen) {
      ParsedCallSuffixWellFormed(ts, pos + 1);
    }
  }

  lemma {:induction false} QualifiedOperandWellFormed(ts: seq<Token>, pos: nat)
    requires pos <= |ts|
    ensures ParseQualifiedOperand(ts, pos).Match? ==> WellFormed(ParseQualifiedOperand(ts, pos).node)
    decreases |ts| - pos, 2
  {
    if IsSym(ts, pos, LParen) {
      ExpressionWellFormed(ts, pos + 1);
    }
    AggregateWellFormed(ts, pos);
  }

  lemma {:induction false} ParsedCallSuffixWellFormed(ts: seq<Token>, pos: nat)
    requires pos <= |ts|
    ensures ParseCallSuffix(ts, pos).Match? ==> CallSuffixWellFormed(ParseCallSuffix(ts, pos).node)
    decreases |ts| - pos, 14
  {
    DiscreteRangeWellFormed(ts, pos);
    ParamAssocsWellFormed(ts, pos);
  }

  lemma {:induction false} ParamAssocsWellFormed(ts: seq<Token>, pos: nat)
    requires pos <= |ts|
    ensures var r := ParseParamAssocs(ts, pos);
      r.Match? ==> |r.node| > 0 && forall a <- r.node :: ParamAssocWellFormed(a)
    decreases |ts| - pos, 13
  {
    ParsedParamAssocWellFormed(ts, pos);
    match ParseParamAssoc(ts, pos)
    case NoMatch =>
    case Match(_, p) =>
      if IsSym(ts, p, Comma) {
        ParamAssocsWellFormed(ts, p + 1);
      }
  }

  lemma {:induction false} ParsedParamAssocWellFormed(ts: seq<Token>, pos: nat)
    requires pos <= |ts|
    ensures ParseParamAssoc(ts, pos).Match? ==> ParamAssocWellFormed(ParseParamAssoc(ts, pos).node)
    decreases |ts| - pos, 12
  {
    var d := ParseParamDesignator(ts, pos);
    var designated := d.Match? && IsSym(ts, d.next, Arrow);
    var p := if designated then d.next + 1 else pos;
    ExpressionWellFormed(ts, p);
  }

  // ---------------------------------------------------------------------
  // Allocators, conditional, quantified and raise expressions

  lemma {:induction false} AllocatorWellFormed(ts: seq<Token>, pos: nat)
    requires pos <= |ts|
    ensures ParseAllocator(ts, pos).Match? ==> WellFormed(ParseAllocator(ts, pos).node)
    decreases |ts| - pos, 1
  {
    if IsSym(ts, pos, KwNew) {
      if IsSym(ts, pos + 1, LParen) {
        NameWellFormed(ts, pos + 2);
      }
      var sub: Parsed<Expr> :=
        if !IsSym(ts, pos + 1, LParen) then NoMatch
        else (match ParseName(ts, pos + 2)
              case NoMatch => NoMatch
              case Match(n, p) => if IsSym(ts, p, RParen) then Match(n, p + 1) else NoMatch);
      NameWellFormed(ts, if sub.Match? then sub.next else pos + 1);
    }
  }

  lemma {:induction false} KeywordExpressionWellFormed(ts: seq<Token>, pos: nat, kw: Symbol)
    requires pos <= |ts|
    ensures OptWellFormed(ParseKeywordExpression(ts, pos, kw).0)
    decreases |ts| - pos, 1
  {
    if IsSym(ts, pos, kw) {
      ExpressionWellFormed(ts, pos + 1);
    }
  }

  lemma {:induction false} RaiseExpressionWellFormed(ts: seq<Token>, pos: nat)
    requires pos <= |ts|
    ensures ParseRaiseExpression(ts, pos).Match? ==> WellFormed(ParseRaiseExpression(ts, pos).node)
    decreases |ts| - pos, 1
  {
    if IsSym(ts, pos, KwRaise) {
      NameWellFormed(ts, pos + 1);
      match ParseName(ts, pos + 1)
      case NoMatch =>
      case Match(_, p) => KeywordExpressionWellFormed(ts, p, KwWith);
    }
  }

  lemma {:induction false} IfExpressionWellFormed(ts: seq<Token>, pos: nat)
    requires pos <= |ts|
    ensures ParseIfExpression(ts, pos).Match? ==> WellFormed(ParseIfExpression(ts, pos).node)
    decreases |ts| - pos, 1
  {
    if IsSym(ts, pos, KwIf) {
      ExpressionWellFormed(ts, pos + 1);
      match ParseExpression(ts, pos + 1)
      case NoMatch =>
      case Match(cond, p) =>
        if IsSym(ts, p, KwThen) {
          ExpressionWellFormed(ts, p + 1);
          match ParseExpression(ts, p + 1)
          case NoMatch =>
          case Match(thenExpr, q) =>
            var (elsifs, q2) := ParseElsifParts(ts, q);
            ElsifPartsWellFormed(ts, q);
            KeywordExpressionWellFormed(ts, q2, KwElse);
            IfNodeWellFormed(cond, thenExpr, elsifs, ParseKeywordExpression(ts, q2, KwElse).0);
        }
    }
  }

  lemma IfNodeWellFormed(cond: Expr, thenExpr: Expr, elsifs: seq<ElsifExprPart>, elseExpr: Option<Expr>)
    requires WellFormed(cond) && WellFormed(thenExpr) && OptWellFormed(elseExpr)
    requires forall part <- elsifs :: WellFormed(part.condExpr) && WellFormed(part.thenExpr)
    ensures WellFormed(IfExpr(cond, thenExpr, elsifs, elseExpr))
  {
  }

  lemma {:induction false} ElsifPartsWellFormed(ts: seq<Token>, pos: nat)
    requires pos <= |ts|
    ensures forall part <- ParseElsifParts(ts, pos).0 :: WellFormed(part.condExpr) && WellFormed(part.thenExpr)
    decreases |ts| - pos, 2
  {
    ElsifExprPartWellFormed(ts, pos);
    match ParseElsifExprPart(ts, pos)
    case NoMatch =>
    case Match(_, p) => ElsifPartsWellFormed(ts, p);
  }

  lemma {:induction false} ElsifExprPartWellFormed(ts: seq<Token>, pos: nat)
    requires pos <= |ts|
    ensures var r := ParseElsifExprPart(ts, pos);
      r.Match? ==> WellFormed(r.node.condExpr) && WellFormed(r.node.thenExpr)
    decreases |ts| - pos, 1
  {
    if IsSym(ts, pos, KwElsif) {
      ExpressionWellFormed(ts, pos + 1);
      match ParseExpression(ts, pos + 1)
      case NoMatch =>
      case Match(_, p) =>
        if IsSym(ts, p, KwThen) {
          ExpressionWellFormed(ts, p + 1);
        }
    }
  }

  lemma {:induction false} CaseExpressionWellFormed(ts: seq<Token>, pos: nat)
    requires pos <= |ts|
    ensures ParseCaseExpression(ts, pos).Match? ==> WellFormed(ParseCaseExpression(ts, pos).node)
    decreases |ts| - pos, 1
  {
    if IsSym(ts, pos, KwCase) {
      ExpressionWellFormed(ts, pos + 1);
      match ParseExpression(ts, pos + 1)
      case NoMatch =>
      case Match(_, p) =>
        if IsSym(ts, p, KwIs) {
          CaseExprAltsWellFormed(ts, p + 1);
        }
    }
  }

  lemma {:induction false} CaseExprAltsWellFormed(ts: seq<Token>, pos: nat)
    requires pos <= |ts|
    ensures var r := ParseCaseExprAlts(ts, pos);
      r.Match? ==> |r.node| > 0 && forall alt <- r.node :: CaseAltWellFormed(alt)
    decreases |ts| - pos, 2
  {
    CaseExprAltWellFormed(ts, pos);
    match ParseCaseExprAlt(ts, pos)
    case NoMatch =>
    case Match(_, p) =>
      if IsSym(ts, p, Comma) {
        CaseExprAltsWellFormed(ts, p + 1);
      }
  }

  lemma {:induction false} CaseExprAltWellFormed(ts: seq<Token>, pos: nat)
    requires pos <= |ts|
    ensures ParseCaseExprAlt(ts, pos).Match? ==> CaseAltWellFormed(ParseCaseExprAlt(ts, pos).node)
    decreases |ts| - pos, 1
  {
    if IsSym(ts, pos, KwWhen) {
      ChoiceListWellFormed(ts, pos + 1);
      match ParseChoiceList(ts, pos + 1)
      case NoMatch =>
      case Match(_, p) =>
        if IsSym(ts, p, Arrow) {
          ExpressionWellFormed(ts, p + 1);
        }
    }
  }

  lemma {:induction false} ConditionalExpressionWellFormed(ts: seq<Token>, pos: nat)
    requires pos <= |ts|
    ensures var r := ParseConditionalExpression(ts, pos);
      r.Match? ==> WellFormed(r.node)
    decreases |ts| - pos, 2
  {
    IfExpressionWellFormed(ts, pos);
    CaseExpressionWellFormed(ts, pos);
    QuantifiedExpressionWellFormed(ts, pos);
  }

  lemma {:induction false} QuantifiedExpressionWellFormed(ts: seq<Token>, pos: nat)
    requires pos <= |ts|
    ensures var r := ParseQuantifiedExpression(ts, pos);
      r.Match? ==> WellFormed(r.node)
    decreases |ts| - pos, 1
  {
    if IsSym(ts, pos, KwFor) && pos + 1 < |ts| && QuantifierOf(ts[pos + 1]).Some? {
      ForLoopParameterSpecWellFormed(ts, pos + 2);
      match ParseForLoopParameterSpec(ts, pos + 2)
      case NoMatch =>
      case Match(_, p) =>
        if IsSym(ts, p, Arrow) {
          ExpressionWellFormed(ts, p + 1);
          DiscreteRangeWellFormed(ts, p + 1);
        }
    }
  }

  lemma {:induction false} ForLoopParameterSpecWellFormed(ts: seq<Token>, pos: nat)
    requires pos <= |ts|
    ensures var r := ParseForLoopParameterSpec(ts, pos);
      r.Match? ==> LoopSpecWellFormed(r.node)
    decreases |ts| - pos, 1
  {
    match ParseIdentifier(ts, pos)
    case NoMatch =>
    case Match(_, p) =>
      if p < |ts| && IterTypeOf(ts[p]).Some? {
        var p2 := if IsSym(ts, p + 1, KwReverse) then p + 2 else p + 1;
        NameWellFormed(ts, p2);
        DiscreteRangeWellFormed(ts, p2);
        ExpressionWellFormed(ts, p2);
      }
  }

  // ---------------------------------------------------------------------
  // Aggregates

  lemma {:induction false} AggregateWellFormed(ts: seq<Token>, pos: nat)
    requires pos <= |ts|
    ensures ParseAggregate(ts, pos).Match? ==> WellFormed(ParseAggregate(ts, pos).node)
    decreases |ts| - pos, 1
  {
    if IsSym(ts, pos, LParen) {
      ExpressionWellFormed(ts, pos + 1);
      var anc := ParseExpression(ts, pos + 1);
      var hasAncestor := anc.Match? && IsSym(ts, anc.next, KwWith);
      AggregateContentWellFormed(ts, if hasAncestor then anc.next + 1 else pos + 1);
    }
  }

  lemma {:induction false} AggregateContentWellFormed(ts: seq<Token>, pos: nat)
    requires pos <= |ts|
    ensures var r := ParseAggregateContent(ts, pos);
      r.Match? ==> ContentWellFormed(r.node)
    decreases |ts| - pos, 19
  {
    AggregateAssocsWellFormed(ts, pos);
  }

  lemma {:induction false} AggregateAssocsWellFormed(ts: seq<Token>, pos: nat)
    requires pos <= |ts|
    ensures var r := ParseAggregateAssocs(ts, pos);
      r.Match? ==> |r.node| > 0 && forall a <- r.node :: AssocWellFormed(a)
    decreases |ts| - pos, 18
  {
    AggregateAssocWellFormed(ts, pos);
    match ParseAggregateAssoc(ts, pos)
    case NoMatch =>
    case Match(_, p) =>
      if IsSym(ts, p, Comma) {
        AggregateAssocsWellFormed(ts, p + 1);
      }
  }

  lemma {:induction false} AggregateAssocWellFormed(ts: seq<Token>, pos: nat)
    requires pos <= |ts|
    ensures ParseAggregateAssoc(ts, pos).Match? ==> AssocWellFormed(ParseAggregateAssoc(ts, pos).node)
    decreases |ts| - pos, 17
  {
    AggregateFieldWellFormed(ts, pos);
    var field := ParseAggregateField(ts, pos);
    var designated := field.Match? && IsSym(ts, field.next, Arrow);
    ExpressionWellFormed(ts, if designated then field.next + 1 else pos);
  }

  lemma {:induction false} AggregateFieldWellFormed(ts: seq<Token>, pos: nat)
    requires pos <= |ts|
    ensures ParseAggregateField(ts, pos).Match? ==> FieldWellFormed(ParseAggregateField(ts, pos).node)
    decreases |ts| - pos, 16
  {
    ChoiceListWellFormed(ts, pos);
    ExpressionWellFormed(ts, pos);
  }
}
