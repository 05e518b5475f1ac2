/** Concrete parses of the expression rules (exprs.py:257-459). */
module Examples {
  import opened Tokens
  import opened Ast
  import opened Grammar
  import opened RoundTrip
  import opened Phrases
  import opened PrimaryReading

  const a := IdentTok("a")
  const b := IdentTok("b")
  const c := IdentTok("c")
  const f := IdentTok("f")
  const one := NumberTok("1")
  const two := NumberTok("2")
  const three := NumberTok("3")

  /** `1+2*3`: the product is the right operand of the sum. */
  lemma SumOfProduct()
    ensures ParseExpression([one, Sym(PlusSign), two, Sym(Star), three], 0)
         == Match(BinOp(NumLiteral(one), PlusOp, BinOp(NumLiteral(two), MultOp, NumLiteral(three))), 5)
  {
    var e := BinOp(NumLiteral(one), PlusOp, BinOp(NumLiteral(two), MultOp, NumLiteral(three)));
    assert Show(e, LE) == [one, Sym(PlusSign), two, Sym(Star), three];
    ParseOfShow(e);
  }

  /** `a + -b`: a sign may only start a simple expression, so the rule stops after `a`. */
  lemma SignOnlyFirst()
    ensures ParseExpression([a, Sym(PlusSign), Sym(MinusSign), b], 0) == Match(Identifier(a), 1)
  {
    var ts := [a, Sym(PlusSign), Sym(MinusSign), b];
    assert ParseNameSuffixes(ts, Identifier(a), 1) == Match(Identifier(a), 1);
    assert ParsePrimary(ts, 0) == Match(Identifier(a), 1);
    assert ParseTerm(ts, 0) == Match(Identifier(a), 1);
    assert ParseSimpleExpr2(ts, 2).NoMatch?;
    assert ParseSimpleExpr(ts, 0) == Match(Identifier(a), 1);
    assert ParseRelation(ts, 0) == Match(Identifier(a), 1);
  }

  /** `2**3**2`: a factor holds one `**`, so the rule stops after `2**3`. */
  lemma PowDoesNotChain()
    ensures ParseExpression([two, Sym(StarStar), three, Sym(StarStar), two], 0)
         == Match(BinOp(NumLiteral(two), PowOp, NumLiteral(three)), 3)
  {
    var ts := [two, Sym(StarStar), three, Sym(StarStar), two];
    var e := BinOp(NumLiteral(two), PowOp, NumLiteral(three));
    assert ParsePrimary(ts, 0) == Match(NumLiteral(two), 1);
    assert ParsePrimary(ts, 2) == Match(NumLiteral(three), 3);
    assert ParseFactor(ts, 0) == Match(e, 3);
    assert ParseTerm(ts, 0) == Match(e, 3);
    assert ParseSimpleExpr(ts, 0) == Match(e, 3);
    assert ParseRelation(ts, 0) == Match(e, 3);
  }

  /** `a - b - c`: the chain nests to the right. */
  lemma MinusChainNestsRight()
    ensures ParseExpression([a, Sym(MinusSign), b, Sym(MinusSign), c], 0)
         == Match(BinOp(Identifier(a), MinusOp, BinOp(Identifier(b), MinusOp, Identifier(c))), 5)
  {
    var e := BinOp(Identifier(a), MinusOp, BinOp(Identifier(b), MinusOp, Identifier(c)));
    assert Show(e, LE) == [a, Sym(MinusSign), b, Sym(MinusSign), c];
    ParseOfShow(e);
  }

  /** `-2**2`: the sign applies to the whole term `2**2`. */
  lemma SignTakesTerm()
    ensures ParseExpression([Sym(MinusSign), two, Sym(StarStar), two], 0)
         == Match(UnOp(MinusOp, BinOp(NumLiteral(two), PowOp, NumLiteral(two))), 4)
  {
    var e := UnOp(MinusOp, BinOp(NumLiteral(two), PowOp, NumLiteral(two)));
    assert Show(e, LE) == [Sym(MinusSign), two, Sym(StarStar), two];
    ParseOfShow(e);
  }

  /** `a and then b or else c`: the two-token operators, nested to the right. */
  lemma ShortCircuitOperators()
    ensures ParseExpression([a, Sym(KwAnd), Sym(KwThen), b, Sym(KwOr), Sym(KwElse), c], 0)
         == Match(BinOp(Identifier(a), AndThenOp, BinOp(Identifier(b), OrElseOp, Identifier(c))), 7)
  {
    var e := BinOp(Identifier(a), AndThenOp, BinOp(Identifier(b), OrElseOp, Identifier(c)));
    assert Show(e, LE) == [a, Sym(KwAnd), Sym(KwThen), b, Sym(KwOr), Sym(KwElse), c];
    ParseOfShow(e);
  }

  /** `a = b = c`: a comparison recurses into relation. */
  lemma ComparisonChain()
    ensures ParseExpression([a, Sym(Equal), b, Sym(Equal), c], 0)
         == Match(BinOp(Identifier(a), EqOp, BinOp(Identifier(b), EqOp, Identifier(c))), 5)
  {
    var e := BinOp(Identifier(a), EqOp, BinOp(Identifier(b), EqOp, Identifier(c)));
    assert Show(e, LE) == [a, Sym(Equal), b, Sym(Equal), c];
    ParseOfShow(e);
  }

  /** `a in 1 .. 3`: a membership expression over a one-range choice list. */
  lemma MembershipOfRange()
    ensures ParseExpression([a, Sym(KwIn), one, Sym(DotDot), three], 0)
         == Match(MembershipExpr(Identifier(a), InOp,
                    [ChoiceExpr(BinOp(NumLiteral(one), EllipsisOp, NumLiteral(three)))]), 5)
  {
    var cs := [ChoiceExpr(BinOp(NumLiteral(one), EllipsisOp, NumLiteral(three)))];
    var e := MembershipExpr(Identifier(a), InOp, cs);
    assert ShowChoice(cs[0]) == [one, Sym(DotDot), three];
    assert ShowChoices(cs) == [one, Sym(DotDot), three];
    assert ShowFitting(e, LE) == [a] + [Sym(KwIn)] + ShowChoices(cs);
    assert Show(e, LE) == [a, Sym(KwIn), one, Sym(DotDot), three];
    ParseOfShow(e);
  }

  /** `a not in b | others`: `not in` is one operator, and the choices are
      separated by `|`. */
  lemma NotInChoices()
    ensures ParseExpression([a, Sym(KwNot), Sym(KwIn), b, Sym(Bar), Sym(KwOthers)], 0)
         == Match(MembershipExpr(Identifier(a), NotInOp, [ChoiceExpr(Identifier(b)), OthersDesignator]), 6)
  {
    var cs := [ChoiceExpr(Identifier(b)), OthersDesignator];
    var e := MembershipExpr(Identifier(a), NotInOp, cs);
    assert ShowChoices(cs[1..]) == [Sym(KwOthers)];
    assert ShowChoices(cs) == [b, Sym(Bar), Sym(KwOthers)];
    assert ShowFitting(e, LE) == [a] + [Sym(KwNot), Sym(KwIn)] + ShowChoices(cs);
    assert Show(e, LE) == [a, Sym(KwNot), Sym(KwIn), b, Sym(Bar), Sym(KwOthers)];
    ParseOfShow(e);
  }

  /** `abs a ** 2`: `abs` takes one primary, and the rule stops before `**`. */
  lemma AbsTakesPrimary()
    ensures ParseExpression([Sym(KwAbs), a, Sym(StarStar), two], 0) == Match(UnOp(AbsOp, Identifier(a)), 2)
  {
    var ts := [Sym(KwAbs), a, Sym(StarStar), two];
    var e := UnOp(AbsOp, Identifier(a));
    assert ParseNameSuffixes(ts, Identifier(a), 2) == Match(Identifier(a), 2);
    assert ParsePrimary(ts, 1) == Match(Identifier(a), 2);
    assert ParseFactor(ts, 0) == Match(e, 2);
    assert ParseTerm(ts, 0) == Match(e, 2);
    assert ParseSimpleExpr(ts, 0) == Match(e, 2);
    assert ParseRelation(ts, 0) == Match(e, 2);
  }

  /** The numeric literal `t` at `pos`, followed by a token that cannot
      extend an expression, is parsed as an expression on its own. */
  lemma NumberAlone(ts: seq<Token>, pos: nat)
    requires pos + 1 < |ts| && ts[pos].NumberTok? && ExtLevel(ts[pos + 1]) == 9
    ensures ParseExpression(ts, pos) == Match(NumLiteral(ts[pos]), pos + 1)
  {
    var e := NumLiteral(ts[pos]);
    assert Show(e, LE) == [ts[pos]];
    assert At(ts, pos, Show(e, LE));
    ExpressionOfShow(ts, pos, e, LE);
  }

  /** `a'Range(1)`: after `'`, the attribute alternative is tried before
      the qualified expression, so this is an attribute reference with
      arguments. */
  lemma AttributeBeforeQualification()
    ensures ParseName([a, Sym(Tick), Sym(KwRange), Sym(LParen), one, Sym(RParen)], 0)
         == Match(AttributeRef(Identifier(a), Attribute(Sym(KwRange)),
                    Some(ParamList([ParamAssoc(None, NumLiteral(one))]))), 6)
  {
    var ts := [a, Sym(Tick), Sym(KwRange), Sym(LParen), one, Sym(RParen)];
    var args := ParamList([ParamAssoc(None, NumLiteral(one))]);
    var e := AttributeRef(Identifier(a), Attribute(Sym(KwRange)), Some(args));
    NumberAlone(ts, 4);
    assert ParseDiscreteRange(ts, 4).NoMatch?;
    assert ParseParamAssoc(ts, 4) == Match(ParamAssoc(None, NumLiteral(one)), 5);
    assert ParseParamAssocs(ts, 4) == Match([ParamAssoc(None, NumLiteral(one))], 5);
    assert ParseCallArguments(ts, 3) == Match(args, 6);
    assert ParseNameSuffixes(ts, e, 6) == Match(e, 6);
    assert ParseNameSuffixes(ts, Identifier(a), 1) == Match(e, 6);
  }

  /** `f(1, b => 2)`: a call whose second parameter is designated. */
  lemma CallWithNamedParameter()
    ensures ParseName([f, Sym(LParen), one, Sym(Comma), b, Sym(Arrow), two, Sym(RParen)], 0)
         == Match(CallExpr(Identifier(f), ParamList([ParamAssoc(None, NumLiteral(one)),
                    ParamAssoc(Some(ChoiceExpr(Identifier(b))), NumLiteral(two))])), 8)
  {
    var ts := [f, Sym(LParen), one, Sym(Comma), b, Sym(Arrow), two, Sym(RParen)];
    var p1 := ParamAssoc(None, NumLiteral(one));
    var p2 := ParamAssoc(Some(ChoiceExpr(Identifier(b))), NumLiteral(two));
    var e := CallExpr(Identifier(f), ParamList([p1, p2]));
    NumberAlone(ts, 2);
    NumberAlone(ts, 6);
    assert ParseDiscreteRange(ts, 2).NoMatch?;
    assert ParseParamAssoc(ts, 2) == Match(p1, 3);
    assert ParseParamAssoc(ts, 4) == Match(p2, 7);
    assert ParseParamAssocs(ts, 4) == Match([p2], 7);
    assert [p1] + [p2] == [p1, p2];
    assert ParseParamAssocs(ts, 2) == Match([p1, p2], 7);
    assert ParseCallArguments(ts, 1) == Match(ParamList([p1, p2]), 8);
    assert ParseNameSuffixes(ts, e, 8) == Match(e, 8);
  }

  /** A numeric literal followed by `,` or `)` is a positional association. */
  lemma PositionalAssoc(ts: seq<Token>, pos: nat)
    requires pos + 1 < |ts| && ts[pos].NumberTok? && (ts[pos + 1] == Sym(Comma) || ts[pos + 1] == Sym(RParen))
    ensures ParseAggregateAssoc(ts, pos) == Match(AggregateAssoc(None, NumLiteral(ts[pos])), pos + 1)
  {
    NumberAlone(ts, pos);
    assert ParseDiscreteRange(ts, pos).NoMatch?;
    assert ParseChoice(ts, pos) == Match(ChoiceExpr(NumLiteral(ts[pos])), pos + 1);
    assert ParseChoiceList(ts, pos) == Match([ChoiceExpr(NumLiteral(ts[pos]))], pos + 1);
  }

  /** `others => n`, followed by a token that cannot extend an expression. */
  lemma OthersAssoc(ts: seq<Token>, pos: nat)
    requires pos + 3 < |ts| && ts[pos] == Sym(KwOthers) && ts[pos + 1] == Sym(Arrow)
    requires ts[pos + 2].NumberTok? && ExtLevel(ts[pos + 3]) == 9
    ensures ParseAggregateAssoc(ts, pos)
         == Match(AggregateAssoc(Some(AggregateMember([OthersDesignator])), NumLiteral(ts[pos + 2])), pos + 3)
  {
    NumberAlone(ts, pos + 2);
    assert ParseExpression(ts, pos).NoMatch?;
    assert ParseDiscreteRange(ts, pos).NoMatch?;
    assert ParseChoice(ts, pos) == Match(OthersDesignator, pos + 1);
    assert ParseChoiceList(ts, pos) == Match([OthersDesignator], pos + 1);
  }

  const aggregateTokens := [Sym(LParen), one, Sym(Comma), two, Sym(Comma), Sym(KwOthers), Sym(Arrow), three, Sym(RParen)]

  const aggregateAssocs := [
    AggregateAssoc(None, NumLiteral(one)),
    AggregateAssoc(None, NumLiteral(two)),
    AggregateAssoc(Some(AggregateMember([OthersDesignator])), NumLiteral(three))]

  lemma AggregateAssocList()
    ensures ParseAggregateAssocs(aggregateTokens, 1) == Match(aggregateAssocs, 8)
  {
    var ts := aggregateTokens;
    var a1, a2, a3 := aggregateAssocs[0], aggregateAssocs[1], aggregateAssocs[2];
    PositionalAssoc(ts, 1);
    PositionalAssoc(ts, 3);
    OthersAssoc(ts, 5);
    assert ParseAggregateAssocs(ts, 5) == Match([a3], 8);
    assert [a2] + [a3] == [a2, a3];
    assert ParseAggregateAssocs(ts, 3) == Match([a2, a3], 8);
    assert [a1] + [a2, a3] == aggregateAssocs;
  }

  /** `(1, 2, others => 3)`: positional associations, then one designated
      by `others`. The designator comes out as a one-element choice list,
      since `aggregate_field` tries `choice_list` first. */
  lemma PositionalAggregate()
    ensures ParsePrimary(aggregateTokens, 0) == Match(Aggregate(None, AggregateContent(aggregateAssocs)), 9)
  {
    var ts := aggregateTokens;
    NumberAlone(ts, 1);
    AggregateAssocList();
    assert ParseParenthesized(ts, 0).NoMatch?;
    assert ParseAggregate(ts, 0) == Match(Aggregate(None, AggregateContent(aggregateAssocs)), 9);
    assert ParseName(ts, 0).NoMatch?;
    assert ParseAllocator(ts, 0).NoMatch?;
    assert ParseConditionalExpression(ts, 0).NoMatch?;
    assert ParseRaiseExpression(ts, 0).NoMatch?;
  }

  /** `a.b.c` as a static name: nested to the left, and its relative name
      is the last segment. */
  lemma StaticDottedName()
    ensures ParseStaticName([a, Sym(Dot), b, Sym(Dot), c], 0)
         == Match(NamePrefix(NamePrefix(Identifier(a), Identifier(b)), Identifier(c)), 5)
    ensures NameResolution.RelativeName(ParseStaticName([a, Sym(Dot), b, Sym(Dot), c], 0).node) == c
  {
    var ts := [a, Sym(Dot), b, Sym(Dot), c];
    var ab := NamePrefix(Identifier(a), Identifier(b));
    var abc := NamePrefix(ab, Identifier(c));
    assert ParseStaticNameRest(ts, abc, 5, 0) == Match(abc, 5);
    assert ParseStaticNameRest(ts, ab, 3, 0) == Match(abc, 5);
    assert ParseStaticNameRest(ts, Identifier(a), 1, 0) == Match(abc, 5);
  }

  /** `(a with 1)`: the expression before `with` is the ancestor part. */
  lemma AncestorAggregate()
    ensures ParsePrimary([Sym(LParen), a, Sym(KwWith), one, Sym(RParen)], 0)
         == Match(Aggregate(Some(Identifier(a)), AggregateContent([AggregateAssoc(None, NumLiteral(one))])), 5)
  {
    var g := Aggregate(Some(Identifier(a)), AggregateContent([AggregateAssoc(None, NumLiteral(one))]));
    assert ShowPhrase(g) == [Sym(LParen), a, Sym(KwWith), one, Sym(RParen)];
    PhraseParse(g);
  }

  /** `(null record)`: the null content, not the literal `null`. */
  lemma NullRecordAggregate()
    ensures ParsePrimary([Sym(LParen), Sym(KwNull), Sym(KwRecord), Sym(RParen)], 0)
         == Match(Aggregate(None, NullRecordContent), 4)
  {
    var g := Aggregate(None, NullRecordContent);
    assert ShowPhrase(g) == [Sym(LParen), Sym(KwNull), Sym(KwRecord), Sym(RParen)];
    PhraseParse(g);
  }

  /** `(a => <>)`: a designated association whose value is the box. */
  lemma DiamondAggregate()
    ensures ParsePrimary([Sym(LParen), a, Sym(Arrow), Sym(Diamond), Sym(RParen)], 0)
         == Match(Aggregate(None, AggregateContent([
                    AggregateAssoc(Some(AggregateMember([ChoiceExpr(Identifier(a))])), DiamondExpr)])), 5)
  {
    var g := Aggregate(None, AggregateContent([
      AggregateAssoc(Some(AggregateMember([ChoiceExpr(Identifier(a))])), DiamondExpr)]));
    var x := AggregateAssoc(Some(AggregateMember([ChoiceExpr(Identifier(a))])), DiamondExpr);
    assert Show(Identifier(a), LC) == [a];
    assert ShowChoices([ChoiceExpr(Identifier(a))]) == [a];
    assert ShowAssoc(x) == [a, Sym(Arrow), Sym(Diamond)];
    assert ShowPhrase(g) == [Sym(LParen), a, Sym(Arrow), Sym(Diamond), Sym(RParen)];
    PhraseParse(g);
  }
}
