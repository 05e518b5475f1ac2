/** The compound rules of the grammar read back what module Phrases
    prints: for names, call suffixes, aggregates, allocators, raise
    expressions and conditional expressions, parsing the printed phrase
    gives the phrase back and stops where it ends.

    Each `<Rule>OfShow` lemma is the reference reading of one rule: the
    alternatives it tries before the one that matches fail on the printed
    tokens, the separators (`,`, `=>`, `with`, `then`, `is`, ...) end the
    expression before them, and the node built is the phrase itself. */
module PhraseRoundTrip {
  import opened Tokens
  import opened Ast
  import opened Grammar
  import opened RoundTrip
  import opened Phrases

  // ---------------------------------------------------------------------
  // What may follow a phrase

  /** The end of an item of a `,`-separated list inside parentheses. */
  predicate ListFollow(ts: seq<Token>, p: nat) {
    IsSym(ts, p, Comma) || IsSym(ts, p, RParen)
  }

  /** The end of a phrase at the top level or inside parentheses. */
  predicate Closes(ts: seq<Token>, p: nat) {
    p == |ts| || IsSym(ts, p, RParen)
  }

  lemma ListFollowStops(ts: seq<Token>, p: nat)
    requires ListFollow(ts, p)
    ensures ChoiceStops(ts, p) && Stops(ts, p, LE) && !IsSym(ts, p, Bar) && !IsSym(ts, p, Arrow)
    ensures !IsSym(ts, p, KwWith) && !IsSym(ts, p, KwRecord)
  {
  }

  lemma ClosesStops(ts: seq<Token>, p: nat)
    requires Closes(ts, p)
    ensures Stops(ts, p, LE) && Stops(ts, p, LP)
    ensures !IsSym(ts, p, KwWith) && !IsSym(ts, p, KwElse) && !IsSym(ts, p, KwElsif) && !IsSym(ts, p, Comma)
    ensures p < |ts| ==> !IsDirectNameStart(ts[p])
  {
  }

  /** The token after the first one of `s` is not `t` when `s` does not
      hold `t` and, for a one-token `s`, the token after `s` is not `t`. */
  lemma SecondTokenIsNot(ts: seq<Token>, p: nat, s: seq<Token>, t: Token)
    requires At(ts, p, s) && |s| > 0 && t !in s
    requires |s| == 1 ==> !(p + 1 < |ts| && ts[p + 1] == t)
    ensures !(p + 1 < |ts| && ts[p + 1] == t)
  {
    if |s| > 1 {
      assert ts[p + 1] == Nth(s, 1);
      assert s[1] in s;
    }
  }

  /** `k1`, then `a`, then `k2`, then `b`. */
  lemma KeywordsAround(ts: seq<Token>, pos: nat, k1: Symbol, a: seq<Token>, k2: Symbol, b: seq<Token>)
    requires At(ts, pos, [Sym(k1)] + a + [Sym(k2)] + b)
    ensures IsSym(ts, pos, k1) && At(ts, pos + 1, a)
    ensures IsSym(ts, pos + 1 + |a|, k2) && At(ts, pos + 2 + |a|, b)
  {
    AtAroundSym(ts, pos, [Sym(k1)] + a, k2, b);
    AtConcat(ts, pos, [Sym(k1)], a);
    AtHead(ts, pos, [Sym(k1)]);
  }

  lemma Enclosed(ts: seq<Token>, pos: nat, a: seq<Token>)
    requires At(ts, pos, [Sym(LParen)] + a + [Sym(RParen)])
    ensures IsSym(ts, pos, LParen) && At(ts, pos + 1, a) && IsSym(ts, pos + 1 + |a|, RParen)
  {
    AtConcat3(ts, pos, [Sym(LParen)], a, [Sym(RParen)]);
    AtHead(ts, pos, [Sym(LParen)]);
    AtHead(ts, pos + 1 + |a|, [Sym(RParen)]);
  }

  // ---------------------------------------------------------------------
  // Values and ranges

  /** A value is read by ParseExpression, or is `<>`, which
      ParseExpression does not take. */
  lemma ValueOfShow(ts: seq<Token>, p: nat, v: Expr, end: nat)
    requires PrintableValue(v) && At(ts, p, ShowValue(v)) && end == p + |ShowValue(v)| && Stops(ts, end, LE)
    ensures v.DiamondExpr? ==> ParseExpression(ts, p).NoMatch? && ParseDiamondExpr(ts, p) == Match(v, p + 1)
    ensures !v.DiamondExpr? ==> ParseExpression(ts, p) == Match(v, end)
    ensures !v.DiamondExpr? ==> ParseDiamondExpr(ts, p).NoMatch? && ShowStart(ts[p])
  {
    if v.DiamondExpr? {
      AtHead(ts, p, ShowValue(v));
      DiamondIsNoExpression(ts, p);
    } else {
      assert ShowValue(v) == Show(v, LE);
      ExpressionOfShow(ts, p, v, LE);
      FirstAt(ts, p, v, LE);
    }
  }

  lemma DiamondIsNoExpression(ts: seq<Token>, p: nat)
    requires IsSym(ts, p, Diamond)
    ensures ParseExpression(ts, p).NoMatch? && ParseDiamondExpr(ts, p) == Match(DiamondExpr, p + 1)
  {
    assert !IsExpressionStart(ts[p]);
  }

  lemma RangeLayoutOf(ts: seq<Token>, pos: nat, r: Expr) returns (p: nat)
    requires PrintableRange(r) && At(ts, pos, ShowRange(r)) && Stops(ts, pos + |ShowRange(r)|, LC)
    ensures p == pos + |Show(r.left, LC)| && IsSym(ts, p, DotDot)
    ensures At(ts, pos, Show(r.left, LC)) && Stops(ts, p, LC)
    ensures At(ts, p + 1, Show(r.right, LC)) && pos + |ShowRange(r)| == p + 1 + |Show(r.right, LC)|
  {
    p := pos + |Show(r.left, LC)|;
    AtAroundSym(ts, pos, Show(r.left, LC), DotDot, Show(r.right, LC));
  }

  /** discrete_range (exprs.py:427-428) reads `lo .. hi` as the range node. */
  lemma DiscreteRangeOfShow(ts: seq<Token>, pos: nat, r: Expr)
    requires PrintableRange(r) && At(ts, pos, ShowRange(r)) && Stops(ts, pos + |ShowRange(r)|, LC)
    ensures ParseDiscreteRange(ts, pos) == Match(r, pos + |ShowRange(r)|)
  {
    var p := RangeLayoutOf(ts, pos, r);
    ExpressionOfShow(ts, pos, r.left, LC);
    ExpressionOfShow(ts, p + 1, r.right, LC);
  }

  /** range_expression (exprs.py:430-432) reads the same range. */
  lemma RangeExpressionOfShow(ts: seq<Token>, pos: nat, r: Expr)
    requires PrintableRange(r) && At(ts, pos, ShowRange(r)) && Stops(ts, pos + |ShowRange(r)|, LC)
    ensures ParseRangeExpression(ts, pos) == Match(r, pos + |ShowRange(r)|)
  {
    DiscreteRangeOfShow(ts, pos, r);
  }

  // ---------------------------------------------------------------------
  // Call suffixes

  lemma DesignatorOfToken(ts: seq<Token>, pos: nat, d: Choice)
    requires PrintableDesignator(d) && pos < |ts| && ts[pos] == DesignatorToken(d)
    ensures ParseParamDesignator(ts, pos) == Match(d, pos + 1)
  {
  }

  /** param_assoc (exprs.py:343-347): the designator is taken exactly when
      `=>` follows it, and the value is the expression or `<>`. */
  lemma ParamAssocOfShow(ts: seq<Token>, pos: nat, a: ParamAssoc)
    requires PrintableParam(a) && At(ts, pos, ShowParam(a)) && ListFollow(ts, pos + |ShowParam(a)|)
    ensures ParseParamAssoc(ts, pos) == Match(a, pos + |ShowParam(a)|)
  {
    var v := ShowValue(a.expr);
    var end := pos + |ShowParam(a)|;
    ListFollowStops(ts, end);
    if a.designator.Some? {
      var d := a.designator.value;
      AtConcat(ts, pos, [DesignatorToken(d), Sym(Arrow)], v);
      assert ts[pos + 0] == Nth([DesignatorToken(d), Sym(Arrow)], 0);
      assert ts[pos + 1] == Nth([DesignatorToken(d), Sym(Arrow)], 1);
      DesignatorOfToken(ts, pos, d);
      ValueOfShow(ts, pos + 2, a.expr, end);
    } else {
      assert ShowParam(a) == v;
      ValueOfShow(ts, pos, a.expr, end);
      if !a.expr.DiamondExpr? {
        ShowHasNoSeparator(a.expr, LE);
        SecondTokenIsNot(ts, pos, v, Sym(Arrow));
      } else {
        AtHead(ts, pos, v);
      }
    }
  }

  lemma FirstParam(ts: seq<Token>, pos: nat, ps: seq<ParamAssoc>)
    requires PrintableParams(ps) && At(ts, pos, ShowParams(ps)) && IsSym(ts, pos + |ShowParams(ps)|, RParen)
    ensures At(ts, pos, ShowParam(ps[0])) && ListFollow(ts, pos + |ShowParam(ps[0])|)
  {
    if |ps| > 1 {
      AtAroundSym(ts, pos, ShowParam(ps[0]), Comma, ShowParams(ps[1..]));
    }
  }

  /** The first association of a list of more than one, then `,`, then
      the others. */
  lemma ParamsLayout(ts: seq<Token>, pos: nat, ps: seq<ParamAssoc>, end: nat) returns (p: nat)
    requires PrintableParams(ps) && |ps| > 1 && At(ts, pos, ShowParams(ps)) && end == pos + |ShowParams(ps)|
    ensures PrintableParam(ps[0]) && PrintableParams(ps[1..])
    ensures p == pos + |ShowParam(ps[0])| && At(ts, pos, ShowParam(ps[0])) && IsSym(ts, p, Comma)
    ensures At(ts, p + 1, ShowParams(ps[1..])) && end == p + 1 + |ShowParams(ps[1..])|
  {
    p := pos + |ShowParam(ps[0])|;
    AtAroundSym(ts, pos, ShowParam(ps[0]), Comma, ShowParams(ps[1..]));
  }

  lemma ParamsOfParts(ts: seq<Token>, pos: nat, ps: seq<ParamAssoc>, p: nat, end: nat)
    requires |ps| > 1 && pos < p < end <= |ts| && IsSym(ts, p, Comma)
    requires ParseParamAssoc(ts, pos) == Match(ps[0], p) && ParseParamAssocs(ts, p + 1) == Match(ps[1..], end)
    ensures ParseParamAssocs(ts, pos) == Match(ps, end)
  {
    assert [ps[0]] + ps[1..] == ps;
  }

  /** The `List(param_assoc, sep=",")` of call_suffix reads every association. */
  lemma {:induction false} ParamAssocsOfShow(ts: seq<Token>, pos: nat, ps: seq<ParamAssoc>, end: nat)
    requires PrintableParams(ps) && At(ts, pos, ShowParams(ps)) && end == pos + |ShowParams(ps)| && IsSym(ts, end, RParen)
    ensures ParseParamAssocs(ts, pos) == Match(ps, end)
    decreases |ps|
  {
    if |ps| == 1 {
      assert ShowParams(ps) == ShowParam(ps[0]);
      ParamAssocOfShow(ts, pos, ps[0]);
      assert [ps[0]] == ps;
    } else {
      var p := ParamsLayout(ts, pos, ps, end);
      ParamAssocOfShow(ts, pos, ps[0]);
      ParamAssocsOfShow(ts, p + 1, ps[1..], end);
      ParamsOfParts(ts, pos, ps, p, end);
    }
  }

  /** A list of associations is not a discrete range: the expression it
      starts with, if any, is followed by `=>`, `,` or `)`, not by `..`. */
  lemma ParamsAreNoRange(ts: seq<Token>, pos: nat, ps: seq<ParamAssoc>)
    requires PrintableParams(ps) && At(ts, pos, ShowParams(ps)) && IsSym(ts, pos + |ShowParams(ps)|, RParen)
    ensures ParseDiscreteRange(ts, pos).NoMatch?
  {
    FirstParam(ts, pos, ps);
    var a := ps[0];
    var end := pos + |ShowParam(a)|;
    ListFollowStops(ts, end);
    if a.designator.Some? {
      DesignatedParamIsNoRange(ts, pos, a);
    } else {
      assert ShowParam(a) == ShowValue(a.expr);
      ValueOfShow(ts, pos, a.expr, end);
    }
  }

  /** A designator followed by `=>` is not the low bound of a range. */
  lemma DesignatedParamIsNoRange(ts: seq<Token>, pos: nat, a: ParamAssoc)
    requires PrintableParam(a) && a.designator.Some? && At(ts, pos, ShowParam(a))
    ensures ParseDiscreteRange(ts, pos).NoMatch?
  {
    var d := a.designator.value;
    AtConcat(ts, pos, [DesignatorToken(d), Sym(Arrow)], ShowValue(a.expr));
    assert ts[pos + 0] == Nth([DesignatorToken(d), Sym(Arrow)], 0);
    assert ts[pos + 1] == Nth([DesignatorToken(d), Sym(Arrow)], 1);
    if d.ChoiceExpr? {
      assert Show(d.expr, LE) == [ts[pos]];
      ExpressionOfShow(ts, pos, d.expr, LE);
    }
  }

  /** call_suffix (exprs.py:349-353): a range is read as a range, a list of
      associations as a parameter list. */
  lemma CallSuffixOfShow(ts: seq<Token>, pos: nat, s: CallSuffix)
    requires PrintableSuffix(s) && At(ts, pos, ShowSuffix(s)) && IsSym(ts, pos + |ShowSuffix(s)|, RParen)
    ensures ParseCallSuffix(ts, pos) == Match(s, pos + |ShowSuffix(s)|)
  {
    match s
    case RangeSuffix(r) =>
      DiscreteRangeOfShow(ts, pos, r);
    case ParamList(ps) =>
      ParamsAreNoRange(ts, pos, ps);
      ParamAssocsOfShow(ts, pos, ps, pos + |ShowSuffix(s)|);
  }

  /** `(` call_suffix `)` as read by the call and attribute extensions. */
  lemma CallArgumentsOfShow(ts: seq<Token>, pos: nat, s: CallSuffix)
    requires PrintableSuffix(s) && At(ts, pos, ShowArguments(s))
    ensures ParseCallArguments(ts, pos) == Match(s, pos + |ShowArguments(s)|)
  {
    Enclosed(ts, pos, ShowSuffix(s));
    CallSuffixOfShow(ts, pos + 1, s);
  }

  // ---------------------------------------------------------------------
  // Aggregates

  lemma DiamondIsNoField(ts: seq<Token>, pos: nat)
    requires IsSym(ts, pos, Diamond)
    ensures ParseAggregateField(ts, pos).NoMatch?
  {
    DiamondIsNoExpression(ts, pos);
    assert ParseDiscreteRange(ts, pos).NoMatch?;
    assert ParseChoice(ts, pos).NoMatch?;
    assert ParseChoiceList(ts, pos).NoMatch?;
  }

  lemma DesignatedAssocLayout(ts: seq<Token>, pos: nat, a: AggregateAssoc) returns (q: nat)
    requires PrintableAssoc(a) && a.designator.Some?
    requires At(ts, pos, ShowAssoc(a)) && ListFollow(ts, pos + |ShowAssoc(a)|)
    ensures q == pos + |ShowChoices(a.designator.value.choiceList)| && IsSym(ts, q, Arrow)
    ensures At(ts, pos, ShowChoices(a.designator.value.choiceList)) && Stops(ts, q, LE)
    ensures At(ts, q + 1, ShowValue(a.expr)) && pos + |ShowAssoc(a)| == q + 1 + |ShowValue(a.expr)|
    ensures Stops(ts, pos + |ShowAssoc(a)|, LE)
  {
    var cs := a.designator.value.choiceList;
    q := pos + |ShowChoices(cs)|;
    AtAroundSym(ts, pos, ShowChoices(cs), Arrow, ShowValue(a.expr));
    ListFollowStops(ts, pos + |ShowAssoc(a)|);
  }

  /** aggregate_assoc (exprs.py:323-326): the field is the choice list
      before `=>`, and a value without `=>` is positional. */
  lemma AggregateAssocOfShow(ts: seq<Token>, pos: nat, a: AggregateAssoc)
    requires PrintableAssoc(a) && At(ts, pos, ShowAssoc(a)) && ListFollow(ts, pos + |ShowAssoc(a)|)
    ensures ParseAggregateAssoc(ts, pos) == Match(a, pos + |ShowAssoc(a)|)
  {
    var end := pos + |ShowAssoc(a)|;
    ListFollowStops(ts, end);
    if a.designator.Some? {
      DesignatedAssocOfShow(ts, pos, a, end);
    } else {
      PositionalAssocOfShow(ts, pos, a, end);
    }
  }

  lemma DesignatedAssocOfShow(ts: seq<Token>, pos: nat, a: AggregateAssoc, end: nat)
    requires PrintableAssoc(a) && a.designator.Some?
    requires At(ts, pos, ShowAssoc(a)) && end == pos + |ShowAssoc(a)| && ListFollow(ts, end)
    ensures ParseAggregateAssoc(ts, pos) == Match(a, end)
  {
    var cs := a.designator.value.choiceList;
    var q := DesignatedAssocLayout(ts, pos, a);
    ChoiceListOfShow(ts, pos, cs);
    ValueOfShow(ts, q + 1, a.expr, end);
  }

  lemma PositionalAssocOfShow(ts: seq<Token>, pos: nat, a: AggregateAssoc, end: nat)
    requires PrintableAssoc(a) && a.designator.None?
    requires At(ts, pos, ShowAssoc(a)) && end == pos + |ShowAssoc(a)| && ListFollow(ts, end)
    ensures ParseAggregateAssoc(ts, pos) == Match(a, end)
  {
    ListFollowStops(ts, end);
    assert ShowAssoc(a) == ShowValue(a.expr);
    ValueOfShow(ts, pos, a.expr, end);
    if a.expr.DiamondExpr? {
      AtHead(ts, pos, ShowAssoc(a));
      DiamondIsNoField(ts, pos);
    } else {
      ChoiceOfExpression(ts, pos, a.expr, end);
      ChoiceListOfOne(ts, pos, ChoiceExpr(a.expr), end);
    }
  }

  lemma FirstAssoc(ts: seq<Token>, pos: nat, fs: seq<AggregateAssoc>)
    requires PrintableAssocs(fs) && At(ts, pos, ShowAssocs(fs)) && IsSym(ts, pos + |ShowAssocs(fs)|, RParen)
    ensures At(ts, pos, ShowAssoc(fs[0])) && ListFollow(ts, pos + |ShowAssoc(fs[0])|)
    ensures |fs| == 1 <==> IsSym(ts, pos + |ShowAssoc(fs[0])|, RParen)
  {
    if |fs| > 1 {
      AtAroundSym(ts, pos, ShowAssoc(fs[0]), Comma, ShowAssocs(fs[1..]));
    }
  }

  lemma AssocsLayout(ts: seq<Token>, pos: nat, fs: seq<AggregateAssoc>, end: nat) returns (p: nat)
    requires PrintableAssocs(fs) && |fs| > 1 && At(ts, pos, ShowAssocs(fs)) && end == pos + |ShowAssocs(fs)|
    ensures PrintableAssoc(fs[0]) && PrintableAssocs(fs[1..])
    ensures p == pos + |ShowAssoc(fs[0])| && At(ts, pos, ShowAssoc(fs[0])) && IsSym(ts, p, Comma)
    ensures At(ts, p + 1, ShowAssocs(fs[1..])) && end == p + 1 + |ShowAssocs(fs[1..])|
  {
    p := pos + |ShowAssoc(fs[0])|;
    AtAroundSym(ts, pos, ShowAssoc(fs[0]), Comma, ShowAssocs(fs[1..]));
  }

  lemma AssocsOfParts(ts: seq<Token>, pos: nat, fs: seq<AggregateAssoc>, p: nat, end: nat)
    requires |fs| > 1 && pos < p < end <= |ts| && IsSym(ts, p, Comma)
    requires ParseAggregateAssoc(ts, pos) == Match(fs[0], p) && ParseAggregateAssocs(ts, p + 1) == Match(fs[1..], end)
    ensures ParseAggregateAssocs(ts, pos) == Match(fs, end)
  {
    assert [fs[0]] + fs[1..] == fs;
  }

  /** The `List(aggregate_assoc, sep=",")` of aggregate_content. */
  lemma {:induction false} AggregateAssocsOfShow(ts: seq<Token>, pos: nat, fs: seq<AggregateAssoc>, end: nat)
    requires PrintableAssocs(fs) && At(ts, pos, ShowAssocs(fs)) && end == pos + |ShowAssocs(fs)| && IsSym(ts, end, RParen)
    ensures ParseAggregateAssocs(ts, pos) == Match(fs, end)
    decreases |fs|
  {
    if |fs| == 1 {
      assert ShowAssocs(fs) == ShowAssoc(fs[0]);
      AggregateAssocOfShow(ts, pos, fs[0]);
      assert [fs[0]] == fs;
    } else {
      var p := AssocsLayout(ts, pos, fs, end);
      AggregateAssocOfShow(ts, pos, fs[0]);
      AggregateAssocsOfShow(ts, p + 1, fs[1..], end);
      AssocsOfParts(ts, pos, fs, p, end);
    }
  }

  lemma AssocHasNoRecord(a: AggregateAssoc)
    requires PrintableAssoc(a)
    ensures Sym(KwRecord) !in ShowAssoc(a)
  {
    if !a.expr.DiamondExpr? {
      ShowHasNoSeparator(a.expr, LE);
    }
    if a.designator.Some? {
      ShowChoicesHaveNoSeparator(a.designator.value.choiceList);
    }
  }

  /** Associations do not start with `null record`, which the rule tries
      first: after a `null` that starts one comes an operator, a `,`, a `)`
      or `=>`. */
  lemma AssocsAreNotNullRecord(ts: seq<Token>, pos: nat, fs: seq<AggregateAssoc>)
    requires PrintableAssocs(fs) && At(ts, pos, ShowAssocs(fs)) && IsSym(ts, pos + |ShowAssocs(fs)|, RParen)
    ensures ParseAggregateContentNull(ts, pos).NoMatch?
  {
    FirstAssoc(ts, pos, fs);
    ListFollowStops(ts, pos + |ShowAssoc(fs[0])|);
    AssocHasNoRecord(fs[0]);
    ShowAssocNonEmpty(fs[0]);
    SecondTokenIsNot(ts, pos, ShowAssoc(fs[0]), Sym(KwRecord));
  }

  lemma ShowAssocNonEmpty(a: AggregateAssoc)
    requires PrintableAssoc(a)
    ensures |ShowAssoc(a)| > 0
  {
    if !a.expr.DiamondExpr? {
      ShowFirst(a.expr, LE);
    }
  }

  /** aggregate_content_null and aggregate_content (exprs.py:327-330). */
  lemma AggregateContentOfShow(ts: seq<Token>, pos: nat, c: AbstractAggregateContent)
    requires PrintableContent(c) && At(ts, pos, ShowContent(c)) && IsSym(ts, pos + |ShowContent(c)|, RParen)
    ensures c.NullRecordContent? ==> ParseAggregateContentNull(ts, pos) == Match(c, pos + 2)
    ensures c.AggregateContent? ==> ParseAggregateContentNull(ts, pos).NoMatch?
    ensures c.AggregateContent? ==> ParseAggregateContent(ts, pos) == Match(c, pos + |ShowContent(c)|)
  {
    if c.NullRecordContent? {
      assert ts[pos + 0] == Nth(ShowContent(c), 0);
      assert ts[pos + 1] == Nth(ShowContent(c), 1);
    } else {
      AssocsAreNotNullRecord(ts, pos, c.fields);
      AggregateAssocsOfShow(ts, pos, c.fields, pos + |ShowContent(c)|);
    }
  }

  /** A token after `(` that can start the ancestor or the content. */
  predicate OpensAggregate(t: Token) {
    ShowStart(t) || t == Sym(KwOthers) || t == Sym(Diamond)
  }

  /** What ParseExpression reads at the start of a choice followed by `|`
      or `=>`: nothing, or an expression followed by `..`, `|` or `=>`. */
  lemma ExpressionBeforeChoiceEnd(ts: seq<Token>, p: nat, c: Choice)
    requires PrintableChoice(c) && At(ts, p, ShowChoice(c))
    requires IsSym(ts, p + |ShowChoice(c)|, Bar) || IsSym(ts, p + |ShowChoice(c)|, Arrow)
    ensures p < |ts| && OpensAggregate(ts[p])
    ensures ParseExpression(ts, p).NoMatch? || IsSym(ts, ParseExpression(ts, p).next, DotDot)
      || IsSym(ts, ParseExpression(ts, p).next, Bar) || IsSym(ts, ParseExpression(ts, p).next, Arrow)
  {
    if c.OthersDesignator? {
      AtHead(ts, p, ShowChoice(c));
    } else if IsRange(c.expr) {
      var s, x, b, y := RangeShape(c);
      AtAroundSym(ts, p, x, DotDot, y);
      ExpressionOfShow(ts, p, c.expr.left, LC);
      FirstAt(ts, p, c.expr.left, LC);
    } else {
      ExpressionOfShow(ts, p, c.expr, LC);
      FirstAt(ts, p, c.expr, LC);
    }
  }

  /** What ParseExpression reads at the start of the content: never an
      expression followed by `with`, and one followed by `)` only when the
      content is one positional expression. */
  lemma ContentOpening(ts: seq<Token>, p: nat, c: AbstractAggregateContent, q: nat)
    requires PrintableContent(c) && At(ts, p, ShowContent(c)) && q == p + |ShowContent(c)| && IsSym(ts, q, RParen)
    ensures p < |ts| && OpensAggregate(ts[p])
    ensures ParseExpression(ts, p).NoMatch? || !IsSym(ts, ParseExpression(ts, p).next, KwWith)
    ensures OnePositional(c) ==> ParseExpression(ts, p) == Match(c.fields[0].expr, q)
    ensures !OnePositional(c) ==>
      ParseExpression(ts, p).NoMatch? || !IsSym(ts, ParseExpression(ts, p).next, RParen)
  {
    if c.NullRecordContent? {
      NullRecordOpening(ts, p);
    } else {
      assert ShowContent(c) == ShowAssocs(c.fields);
      AssocsOpening(ts, p, c.fields, q);
    }
  }

  /** At `null record`, ParseExpression reads the `null` alone. */
  lemma NullRecordOpening(ts: seq<Token>, p: nat)
    requires At(ts, p, [Sym(KwNull), Sym(KwRecord)])
    ensures p < |ts| && OpensAggregate(ts[p]) && IsSym(ts, p + 1, KwRecord)
    ensures ParseExpression(ts, p) == Match(NullLiteral(Sym(KwNull)), p + 1)
  {
    assert ts[p + 0] == Nth([Sym(KwNull), Sym(KwRecord)], 0);
    assert ts[p + 1] == Nth([Sym(KwNull), Sym(KwRecord)], 1);
    assert Show(NullLiteral(Sym(KwNull)), LE) == [ts[p]];
    ExpressionOfShow(ts, p, NullLiteral(Sym(KwNull)), LE);
  }

  lemma AssocsOpening(ts: seq<Token>, p: nat, fs: seq<AggregateAssoc>, q: nat)
    requires PrintableAssocs(fs) && At(ts, p, ShowAssocs(fs)) && q == p + |ShowAssocs(fs)| && IsSym(ts, q, RParen)
    ensures p < |ts| && OpensAggregate(ts[p])
    ensures ParseExpression(ts, p).NoMatch? || !IsSym(ts, ParseExpression(ts, p).next, KwWith)
    ensures OnePositional(AggregateContent(fs)) ==> ParseExpression(ts, p) == Match(fs[0].expr, q)
    ensures !OnePositional(AggregateContent(fs)) ==>
      ParseExpression(ts, p).NoMatch? || !IsSym(ts, ParseExpression(ts, p).next, RParen)
  {
    var a := fs[0];
    FirstAssoc(ts, p, fs);
    var e := p + |ShowAssoc(a)|;
    assert |fs| == 1 <==> e == q;
    ListFollowStops(ts, e);
    if a.designator.Some? {
      DesignatedOpening(ts, p, a, e);
    } else {
      PositionalOpening(ts, p, a, e);
    }
  }

  /** An association with a designator starts with a choice, which
      ParseExpression does not read up to the end of the association. */
  lemma DesignatedOpening(ts: seq<Token>, p: nat, a: AggregateAssoc, e: nat)
    requires PrintableAssoc(a) && a.designator.Some?
    requires At(ts, p, ShowAssoc(a)) && e == p + |ShowAssoc(a)| && ListFollow(ts, e)
    ensures p < |ts| && OpensAggregate(ts[p])
    ensures ParseExpression(ts, p).NoMatch? || IsSym(ts, ParseExpression(ts, p).next, DotDot)
      || IsSym(ts, ParseExpression(ts, p).next, Bar) || IsSym(ts, ParseExpression(ts, p).next, Arrow)
  {
    var cs := a.designator.value.choiceList;
    var q := DesignatedAssocLayout(ts, p, a);
    FirstChoice(ts, p, cs, q);
    ExpressionBeforeChoiceEnd(ts, p, cs[0]);
  }

  /** A positional association is read by ParseExpression up to its end,
      or is `<>`. */
  lemma PositionalOpening(ts: seq<Token>, p: nat, a: AggregateAssoc, e: nat)
    requires PrintableAssoc(a) && a.designator.None?
    requires At(ts, p, ShowAssoc(a)) && e == p + |ShowAssoc(a)| && ListFollow(ts, e)
    ensures p < |ts| && OpensAggregate(ts[p])
    ensures a.expr.DiamondExpr? ==> ParseExpression(ts, p).NoMatch?
    ensures !a.expr.DiamondExpr? ==> ParseExpression(ts, p) == Match(a.expr, e)
  {
    assert ShowAssoc(a) == ShowValue(a.expr);
    ListFollowStops(ts, e);
    ValueOfShow(ts, p, a.expr, e);
    AtHead(ts, p, ShowAssoc(a));
  }

  /** The first choice of a choice list ended by `=>`. */
  lemma FirstChoice(ts: seq<Token>, p: nat, cs: seq<Choice>, q: nat)
    requires |cs| > 0 && forall c <- cs :: PrintableChoice(c)
    requires At(ts, p, ShowChoices(cs)) && q == p + |ShowChoices(cs)| && IsSym(ts, q, Arrow)
    ensures At(ts, p, ShowChoice(cs[0]))
    ensures IsSym(ts, p + |ShowChoice(cs[0])|, Bar) || IsSym(ts, p + |ShowChoice(cs[0])|, Arrow)
  {
    if |cs| > 1 {
      var p1, end := ChoicesLayout(ts, p, cs);
    }
  }

  /** The ancestor part is read by ParseExpression and ends at `with`. */
  lemma AncestorOfShow(ts: seq<Token>, p: nat, anc: Expr)
    requires Printable(anc) && At(ts, p, ShowAncestor(Some(anc)))
    ensures p < |ts| && OpensAggregate(ts[p])
    ensures ParseExpression(ts, p) == Match(anc, p + |Show(anc, LE)|)
    ensures IsSym(ts, p + |Show(anc, LE)|, KwWith) && |ShowAncestor(Some(anc))| == |Show(anc, LE)| + 1
  {
    AtConcat(ts, p, Show(anc, LE), [Sym(KwWith)]);
    AtHead(ts, p + |Show(anc, LE)|, [Sym(KwWith)]);
    ExpressionOfShow(ts, p, anc, LE);
    FirstAt(ts, p, anc, LE);
  }

  lemma AggregateLayout(ts: seq<Token>, pos: nat, g: Expr) returns (p: nat, q: nat)
    requires PrintableAggregate(g) && At(ts, pos, ShowAggregate(g))
    ensures IsSym(ts, pos, LParen) && p == pos + 1 + |ShowAncestor(g.ancestorExpr)|
    ensures At(ts, pos + 1, ShowAncestor(g.ancestorExpr)) && At(ts, p, ShowContent(g.assocs))
    ensures q == p + |ShowContent(g.assocs)| && IsSym(ts, q, RParen) && q + 1 == pos + |ShowAggregate(g)|
  {
    var anc, content := ShowAncestor(g.ancestorExpr), ShowContent(g.assocs);
    p, q := pos + 1 + |anc|, pos + 1 + |anc| + |content|;
    assert ShowAggregate(g) == [Sym(LParen)] + (anc + content) + [Sym(RParen)];
    Enclosed(ts, pos, anc + content);
    AtConcat(ts, pos + 1, anc, content);
  }

  /** What ParseExpression reads after the `(` of an aggregate. */
  lemma AggregateOpening(ts: seq<Token>, pos: nat, g: Expr)
    requires PrintableAggregate(g) && At(ts, pos, ShowAggregate(g))
    ensures IsSym(ts, pos, LParen) && pos + 1 < |ts| && OpensAggregate(ts[pos + 1])
    ensures g.ancestorExpr.Some? ==> ParseExpression(ts, pos + 1).Match?
    ensures g.ancestorExpr.Some? ==> IsSym(ts, ParseExpression(ts, pos + 1).next, KwWith)
    ensures g.ancestorExpr.None? ==>
      ParseExpression(ts, pos + 1).NoMatch? || !IsSym(ts, ParseExpression(ts, pos + 1).next, KwWith)
    ensures !SinglePositional(g) ==>
      ParseExpression(ts, pos + 1).NoMatch? || !IsSym(ts, ParseExpression(ts, pos + 1).next, RParen)
  {
    var p, q := AggregateLayout(ts, pos, g);
    if g.ancestorExpr.Some? {
      AncestorOfShow(ts, pos + 1, g.ancestorExpr.value);
    } else {
      assert p == pos + 1;
      ContentOpening(ts, p, g.assocs, q);
      assert SinglePositional(g) <==> OnePositional(g.assocs);
    }
  }

  /** aggregate (exprs.py:332-338): the ancestor is taken exactly when
      `with` follows the first expression, `null record` is the null
      content, and the associations are read in order. */
  lemma AggregateOfShow(ts: seq<Token>, pos: nat, g: Expr)
    requires PrintableAggregate(g) && At(ts, pos, ShowAggregate(g))
    ensures ParseAggregate(ts, pos) == Match(g, pos + |ShowAggregate(g)|)
  {
    var p, q := AggregateLayout(ts, pos, g);
    AggregateOpening(ts, pos, g);
    if g.ancestorExpr.Some? {
      AncestorOfShow(ts, pos + 1, g.ancestorExpr.value);
    }
    AggregateContentOfShow(ts, p, g.assocs);
  }
}
