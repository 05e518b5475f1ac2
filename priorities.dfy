/** Consequences of the order in which `Or` tries its alternatives
    (exprs.py:317-321, 355-363, 276-281). */
module Priorities {
  import opened Tokens
  import opened Ast
  import opened Grammar

  // ---------------------------------------------------------------------
  // The postfix extensions of `name` after `'` (a whole name is read back
  // by NameReading.NameOfShow)

  /** `'` and an attribute designator make an attribute reference, with
      the call arguments that follow it if there are any; a qualified
      expression is never tried there. */
  lemma TickAttribute(ts: seq<Token>, base: Expr, pos: nat)
    requires pos + 1 < |ts| && ts[pos] == Sym(Tick)
    requires IsAttributeKeyword(ts[pos + 1]) || ts[pos + 1].IdentTok?
    ensures var attr := ParseAttribute(ts, pos + 1).node;
      var args := ParseCallArguments(ts, pos + 2);
      ParseNameSuffixes(ts, base, pos) ==
        if args.Match? then ParseNameSuffixes(ts, AttributeRef(base, attr, Some(args.node)), args.next)
        else ParseNameSuffixes(ts, AttributeRef(base, attr, None), pos + 2)
  {
  }

  /** `'(` makes a qualified expression: the only extension left. */
  lemma TickQualifies(ts: seq<Token>, base: Expr, pos: nat)
    requires pos < |ts| && ts[pos] == Sym(Tick) && ParseQualifiedOperand(ts, pos + 1).Match?
    ensures var qual := ParseQualifiedOperand(ts, pos + 1);
      ParseNameSuffixes(ts, base, pos) == ParseNameSuffixes(ts, QualExpr(base, qual.node), qual.next)
  {
  }

  /** The name ends exactly where no extension applies. */
  lemma NameEnds(ts: seq<Token>, base: Expr, pos: nat)
    requires pos <= |ts|
    ensures ParseNameSuffixes(ts, base, pos) == Match(base, pos) <==>
      && ParseCallArguments(ts, pos).NoMatch?
      && !(IsSym(ts, pos, Dot) && pos + 1 < |ts| && IsDirectNameStart(ts[pos + 1]))
      && !(IsSym(ts, pos, Tick) && pos + 1 < |ts| && (IsAttributeKeyword(ts[pos + 1]) || ts[pos + 1].IdentTok?))
      && !(IsSym(ts, pos, Tick) && ParseQualifiedOperand(ts, pos + 1).Match?)
  {
  }

  // ---------------------------------------------------------------------
  // Alternatives that an earlier one always covers

  /** aggregate_field tries `choice_list` first. A choice is a range, an
      expression or `others`, so whenever the later alternatives
      (an expression, `others`) would match, the choice list has matched
      already: every designator is an AggregateMember. */
  lemma AggregateFieldIsChoiceList(ts: seq<Token>, pos: nat)
    requires pos <= |ts|
    ensures ParseAggregateField(ts, pos) ==
      match ParseChoiceList(ts, pos)
      case NoMatch => NoMatch
      case Match(cs, q) => Match(AggregateMember(cs), q)
  {
  }

  /** A discrete range starts with an expression, so where an expression
      fails a discrete range fails too: the `discrete_range` alternative of
      a quantified expression's body is never the one that matches. */
  lemma DiscreteRangeNeedsExpression(ts: seq<Token>, pos: nat)
    requires pos <= |ts|
    ensures ParseDiscreteRange(ts, pos).Match? ==> ParseExpression(ts, pos).Match?
  {
  }

  /** quantified_expression as it would read with the body `expression`
      alone, without the `discrete_range` alternative. */
  function QuantifiedWithExpressionBody(ts: seq<Token>, pos: nat): Parsed<Expr>
    requires pos <= |ts|
  {
    if !IsSym(ts, pos, KwFor) then NoMatch
    else
      var q := if pos + 1 < |ts| then QuantifierOf(ts[pos + 1]) else None;
      if q.None? then NoMatch
      else
        match ParseForLoopParameterSpec(ts, pos + 2)
        case NoMatch => NoMatch
        case Match(spec, p) =>
          if !IsSym(ts, p, Arrow) then NoMatch
          else
            match ParseExpression(ts, p + 1)
            case NoMatch => NoMatch
            case Match(e, q2) => Match(QuantifiedExpr(q.value, spec, e), q2)
  }

  /** The `discrete_range` alternative of a quantified expression's body
      never produces the node: dropping it changes nothing. */
  lemma QuantifiedBodyIsExpression(ts: seq<Token>, pos: nat)
    requires pos <= |ts|
    ensures ParseQuantifiedExpression(ts, pos) == QuantifiedWithExpressionBody(ts, pos)
  {
    if IsSym(ts, pos, KwFor) && pos + 1 < |ts| && QuantifierOf(ts[pos + 1]).Some? {
      var spec := ParseForLoopParameterSpec(ts, pos + 2);
      if spec.Match? && IsSym(ts, spec.next, Arrow) {
        DiscreteRangeNeedsExpression(ts, spec.next + 1);
      }
    }
  }

  /** The three alternatives of conditional_expression start with distinct
      keywords: the first token alone decides which of them builds the node. */
  lemma ConditionalByFirstToken(ts: seq<Token>, pos: nat)
    requires pos <= |ts|
    ensures IsSym(ts, pos, KwIf) ==> ParseConditionalExpression(ts, pos) == ParseIfExpression(ts, pos)
    ensures IsSym(ts, pos, KwCase) ==> ParseConditionalExpression(ts, pos) == ParseCaseExpression(ts, pos)
    ensures IsSym(ts, pos, KwFor) ==> ParseConditionalExpression(ts, pos) == ParseQuantifiedExpression(ts, pos)
    ensures !IsSym(ts, pos, KwIf) && !IsSym(ts, pos, KwCase) && !IsSym(ts, pos, KwFor) ==>
      ParseConditionalExpression(ts, pos).NoMatch?
  {
  }

}
