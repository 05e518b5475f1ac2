/** The conditional expressions read back what module Phrases prints: for
    if, case and quantified expressions (exprs.py:269-311), parsing the
    printed phrase gives the expression back and stops where it ends.

    As for the other phrases, each `<Rule>OfShow` lemma is split in three:
    a layout lemma says where the printed parts lie, an `...OfParts` lemma
    is the rule's own step over parts already read, and the lemma itself
    reads each part with the lemma of its rule. */
module ConditionalRoundTrip {
  import opened Tokens
  import opened Ast
  import opened Grammar
  import opened RoundTrip
  import opened Phrases
  import opened PhraseRoundTrip
  import opened NameReading

  // ---------------------------------------------------------------------
  // If expressions (exprs.py:303-308)

  /** What follows a `then` branch: another part, the `else` part, or the
      end of the expression. */
  predicate BranchFollow(ts: seq<Token>, p: nat) {
    IsSym(ts, p, KwElsif) || IsSym(ts, p, KwElse) || Closes(ts, p)
  }

  lemma BranchFollowStops(ts: seq<Token>, p: nat)
    requires BranchFollow(ts, p)
    ensures Stops(ts, p, LE)
  {
  }

  /** A keyword that separates the parts of a conditional expression ends
      the expression before it. */
  lemma KeywordStops(ts: seq<Token>, p: nat, k: Symbol)
    requires IsSym(ts, p, k) && k in {KwThen, KwIs, Arrow, KwElse, KwElsif}
    ensures Stops(ts, p, LE) && Stops(ts, p, LC) && Stops(ts, p, LP)
  {
  }

  /** A printed expression that the next token ends is read whole. */
  lemma ExpressionAt(ts: seq<Token>, pos: nat, x: Expr, end: nat)
    requires Printable(x) && At(ts, pos, Show(x, LE)) && end == pos + |Show(x, LE)| && Stops(ts, end, LE)
    ensures ParseExpression(ts, pos) == Match(x, end)
  {
    ExpressionOfShow(ts, pos, x, LE);
  }

  lemma ElsifOfParts(ts: seq<Token>, pos: nat, part: ElsifExprPart, p: nat, end: nat)
    requires pos < p < end <= |ts| && IsSym(ts, pos, KwElsif) && IsSym(ts, p, KwThen)
    requires ParseExpression(ts, pos + 1) == Match(part.condExpr, p)
    requires ParseExpression(ts, p + 1) == Match(part.thenExpr, end)
    ensures ParseElsifExprPart(ts, pos) == Match(part, end)
  {
  }

  /** The `Row("elsif", expression, "then", expression)` of if_expression
      reads an elsif part when the token after it ends an expression. */
  lemma ElsifExprPartOfShow(ts: seq<Token>, pos: nat, part: ElsifExprPart, end: nat)
    requires PrintableElsif(part) && At(ts, pos, ShowElsif(part))
    requires end == pos + |ShowElsif(part)| && Stops(ts, end, LE)
    ensures ParseElsifExprPart(ts, pos) == Match(part, end)
  {
    var c, t := Show(part.condExpr, LE), Show(part.thenExpr, LE);
    KeywordsAround(ts, pos, KwElsif, c, KwThen, t);
    var p := pos + 1 + |c|;
    KeywordStops(ts, p, KwThen);
    ExpressionOfShow(ts, pos + 1, part.condExpr, LE);
    ExpressionOfShow(ts, p + 1, part.thenExpr, LE);
    ElsifOfParts(ts, pos, part, p, end);
  }

  /** Printed elsif parts start with `elsif`. */
  lemma ElsifsOpen(ps: seq<ElsifExprPart>)
    requires |ps| > 0 && forall part <- ps :: PrintableElsif(part)
    ensures |ShowElsifs(ps)| > 0 && ShowElsifs(ps)[0] == Sym(KwElsif)
  {
    assert ShowElsifs(ps) == ShowElsif(ps[0]) + ShowElsifs(ps[1..]);
  }

  lemma ElsifsLayout(ts: seq<Token>, pos: nat, ps: seq<ElsifExprPart>, end: nat) returns (p: nat)
    requires |ps| > 0 && forall part <- ps :: PrintableElsif(part)
    requires At(ts, pos, ShowElsifs(ps)) && end == pos + |ShowElsifs(ps)| && Stops(ts, end, LE)
    ensures PrintableElsif(ps[0]) && forall part <- ps[1..] :: PrintableElsif(part)
    ensures p == pos + |ShowElsif(ps[0])| && At(ts, pos, ShowElsif(ps[0])) && Stops(ts, p, LE)
    ensures At(ts, p, ShowElsifs(ps[1..])) && end == p + |ShowElsifs(ps[1..])|
  {
    p := pos + |ShowElsif(ps[0])|;
    assert ShowElsifs(ps) == ShowElsif(ps[0]) + ShowElsifs(ps[1..]);
    AtConcat(ts, pos, ShowElsif(ps[0]), ShowElsifs(ps[1..]));
    if |ps| > 1 {
      ElsifsOpen(ps[1..]);
      AtHead(ts, p, ShowElsifs(ps[1..]));
    }
  }

  lemma ElsifsOfParts(ts: seq<Token>, pos: nat, ps: seq<ElsifExprPart>, p: nat, end: nat)
    requires |ps| > 0 && pos < p <= end <= |ts|
    requires ParseElsifExprPart(ts, pos) == Match(ps[0], p) && ParseElsifParts(ts, p) == (ps[1..], end)
    ensures ParseElsifParts(ts, pos) == (ps, end)
  {
    assert [ps[0]] + ps[1..] == ps;
  }

  /** The `List(..., empty_valid=True)` of elsif parts reads every part and
      stops before the first token that is not `elsif`. */
  lemma {:induction false} ElsifPartsOfShow(ts: seq<Token>, pos: nat, ps: seq<ElsifExprPart>, end: nat)
    requires forall part <- ps :: PrintableElsif(part)
    requires At(ts, pos, ShowElsifs(ps)) && end == pos + |ShowElsifs(ps)|
    requires Stops(ts, end, LE) && !IsSym(ts, end, KwElsif)
    ensures ParseElsifParts(ts, pos) == (ps, end)
    decreases |ps|
  {
    if |ps| == 0 {
      assert ShowElsifs(ps) == [];
    } else {
      var p := ElsifsLayout(ts, pos, ps, end);
      ElsifExprPartOfShow(ts, pos, ps[0], p);
      ElsifPartsOfShow(ts, p, ps[1..], end);
      ElsifsOfParts(ts, pos, ps, p, end);
    }
  }

  /** The `Opt("else", expression)` of if_expression. */
  lemma ElseOfShow(ts: seq<Token>, pos: nat, el: Option<Expr>, end: nat)
    requires (el.Some? ==> Printable(el.value)) && At(ts, pos, ShowElse(el))
    requires end == pos + |ShowElse(el)| && Closes(ts, end)
    ensures ParseKeywordExpression(ts, pos, KwElse) == (el, end)
  {
    ClosesStops(ts, end);
    if el.Some? {
      AtConcat(ts, pos, [Sym(KwElse)], Show(el.value, LE));
      AtHead(ts, pos, [Sym(KwElse)]);
      ExpressionOfShow(ts, pos + 1, el.value, LE);
    }
  }

  /** Where the parts of a printed if expression lie: the condition from
      `pos + 1` to `p`, the `then` branch up to `q`, the elsif parts up to
      `q2` and the `else` part up to `end`. */
  lemma IfLayout(ts: seq<Token>, pos: nat, e: Expr, end: nat) returns (p: nat, q: nat, q2: nat)
    requires PrintableIf(e) && At(ts, pos, ShowIf(e)) && end == pos + |ShowIf(e)| && Closes(ts, end)
    ensures IsSym(ts, pos, KwIf) && At(ts, pos + 1, Show(e.condExpr, LE))
    ensures p == pos + 1 + |Show(e.condExpr, LE)| && IsSym(ts, p, KwThen)
    ensures At(ts, p + 1, Show(e.thenExpr, LE)) && q == p + 1 + |Show(e.thenExpr, LE)| && BranchFollow(ts, q)
    ensures At(ts, q, ShowElsifs(e.elsifList)) && q2 == q + |ShowElsifs(e.elsifList)|
    ensures IsSym(ts, q2, KwElse) || Closes(ts, q2)
    ensures At(ts, q2, ShowElse(e.elseExpr)) && end == q2 + |ShowElse(e.elseExpr)|
  {
    var head, tail := IfHead(e), ShowElsifs(e.elsifList) + ShowElse(e.elseExpr);
    assert ShowIf(e) == head + tail;
    AtConcat(ts, pos, head, tail);
    p, q := IfHeadLayout(ts, pos, e);
    q2 := IfTailLayout(ts, q, e, end);
  }

  /** `if` c `then` t: the part of a printed if expression before its
      elsif parts. */
  function IfHead(e: Expr): (s: seq<Token>)
    requires PrintableIf(e)
    ensures ShowIf(e) == s + ShowElsifs(e.elsifList) + ShowElse(e.elseExpr)
  {
    [Sym(KwIf)] + Show(e.condExpr, LE) + [Sym(KwThen)] + Show(e.thenExpr, LE)
  }

  lemma IfHeadLayout(ts: seq<Token>, pos: nat, e: Expr) returns (p: nat, q: nat)
    requires PrintableIf(e) && At(ts, pos, IfHead(e))
    ensures IsSym(ts, pos, KwIf) && At(ts, pos + 1, Show(e.condExpr, LE))
    ensures p == pos + 1 + |Show(e.condExpr, LE)| && IsSym(ts, p, KwThen)
    ensures At(ts, p + 1, Show(e.thenExpr, LE)) && q == p + 1 + |Show(e.thenExpr, LE)| && q == pos + |IfHead(e)|
  {
    KeywordsAround(ts, pos, KwIf, Show(e.condExpr, LE), KwThen, Show(e.thenExpr, LE));
    p, q := pos + 1 + |Show(e.condExpr, LE)|, pos + |IfHead(e)|;
  }

  lemma IfTailLayout(ts: seq<Token>, q: nat, e: Expr, end: nat) returns (q2: nat)
    requires PrintableIf(e) && At(ts, q, ShowElsifs(e.elsifList) + ShowElse(e.elseExpr))
    requires end == q + |ShowElsifs(e.elsifList) + ShowElse(e.elseExpr)| && Closes(ts, end)
    ensures BranchFollow(ts, q)
    ensures At(ts, q, ShowElsifs(e.elsifList)) && q2 == q + |ShowElsifs(e.elsifList)|
    ensures IsSym(ts, q2, KwElse) || Closes(ts, q2)
    ensures At(ts, q2, ShowElse(e.elseExpr)) && end == q2 + |ShowElse(e.elseExpr)|
  {
    var ei, el := ShowElsifs(e.elsifList), ShowElse(e.elseExpr);
    AtConcat(ts, q, ei, el);
    q2 := q + |ei|;
    if e.elseExpr.Some? {
      AtHead(ts, q2, el);
    }
    if |e.elsifList| > 0 {
      ElsifsOpen(e.elsifList);
      AtHead(ts, q, ei);
    }
  }

  lemma IfOfParts(ts: seq<Token>, pos: nat, e: Expr, p: nat, q: nat, q2: nat, end: nat)
    requires e.IfExpr? && pos < p < q <= q2 <= end <= |ts|
    requires IsSym(ts, pos, KwIf) && ParseExpression(ts, pos + 1) == Match(e.condExpr, p)
    requires IsSym(ts, p, KwThen) && ParseExpression(ts, p + 1) == Match(e.thenExpr, q)
    requires ParseElsifParts(ts, q) == (e.elsifList, q2)
    requires ParseKeywordExpression(ts, q2, KwElse) == (e.elseExpr, end)
    ensures ParseIfExpression(ts, pos) == Match(e, end)
  {
  }

  /** The condition and the `then` branch of a printed if expression are
      read, up to its elsif parts. */
  lemma IfHeadRead(ts: seq<Token>, pos: nat, e: Expr, end: nat) returns (p: nat, q: nat, q2: nat)
    requires PrintableIf(e) && At(ts, pos, ShowIf(e)) && end == pos + |ShowIf(e)| && Closes(ts, end)
    ensures pos < p < q <= q2 <= end <= |ts|
    ensures IsSym(ts, pos, KwIf) && ParseExpression(ts, pos + 1) == Match(e.condExpr, p)
    ensures IsSym(ts, p, KwThen) && ParseExpression(ts, p + 1) == Match(e.thenExpr, q)
    ensures At(ts, q, ShowElsifs(e.elsifList)) && q2 == q + |ShowElsifs(e.elsifList)|
    ensures IsSym(ts, q2, KwElse) || Closes(ts, q2)
    ensures At(ts, q2, ShowElse(e.elseExpr)) && end == q2 + |ShowElse(e.elseExpr)|
  {
    p, q, q2 := IfLayout(ts, pos, e, end);
    KeywordStops(ts, p, KwThen);
    ExpressionAt(ts, pos + 1, e.condExpr, p);
    BranchFollowStops(ts, q);
    ExpressionAt(ts, p + 1, e.thenExpr, q);
  }

  /** if_expression (exprs.py:303-308) reads the condition, the `then`
      branch, every elsif part and the `else` part of the printed
      expression. */
  lemma IfExpressionOfShow(ts: seq<Token>, pos: nat, e: Expr, end: nat)
    requires PrintableIf(e) && At(ts, pos, ShowIf(e)) && end == pos + |ShowIf(e)| && Closes(ts, end)
    ensures ParseIfExpression(ts, pos) == Match(e, end)
  {
    var p, q, q2 := IfHeadRead(ts, pos, e, end);
    BranchFollowStops(ts, q2);
    ElsifPartsOfShow(ts, q, e.elsifList, q2);
    ElseOfShow(ts, q2, e.elseExpr, end);
    IfOfParts(ts, pos, e, p, q, q2, end);
  }

  // ---------------------------------------------------------------------
  // Case expressions (exprs.py:288-295)

  lemma AltOfParts(ts: seq<Token>, pos: nat, a: CaseExprAlternative, p: nat, end: nat)
    requires pos < p < end <= |ts| && IsSym(ts, pos, KwWhen) && IsSym(ts, p, Arrow)
    requires ParseChoiceList(ts, pos + 1) == Match(a.choices, p)
    requires ParseExpression(ts, p + 1) == Match(a.expr, end)
    ensures ParseCaseExprAlt(ts, pos) == Match(a, end)
  {
  }

  /** case_expr_alt (exprs.py:293-295) reads `when` choices `=>` expression. */
  lemma CaseExprAltOfShow(ts: seq<Token>, pos: nat, a: CaseExprAlternative, end: nat)
    requires PrintableAlt(a) && At(ts, pos, ShowAlt(a)) && end == pos + |ShowAlt(a)| && Stops(ts, end, LE)
    ensures ParseCaseExprAlt(ts, pos) == Match(a, end)
  {
    var cs, x := ShowChoices(a.choices), Show(a.expr, LE);
    KeywordsAround(ts, pos, KwWhen, cs, Arrow, x);
    var p := pos + 1 + |cs|;
    KeywordStops(ts, p, Arrow);
    ChoiceListOfShow(ts, pos + 1, a.choices);
    ExpressionOfShow(ts, p + 1, a.expr, LE);
    AltOfParts(ts, pos, a, p, end);
  }

  lemma AltsLayout(ts: seq<Token>, pos: nat, alts: seq<CaseExprAlternative>, end: nat) returns (p: nat)
    requires PrintableAlts(alts) && |alts| > 1 && At(ts, pos, ShowAlts(alts)) && end == pos + |ShowAlts(alts)|
    ensures PrintableAlt(alts[0]) && PrintableAlts(alts[1..])
    ensures p == pos + |ShowAlt(alts[0])| && At(ts, pos, ShowAlt(alts[0])) && IsSym(ts, p, Comma)
    ensures At(ts, p + 1, ShowAlts(alts[1..])) && end == p + 1 + |ShowAlts(alts[1..])|
  {
    p := pos + |ShowAlt(alts[0])|;
    AtAroundSym(ts, pos, ShowAlt(alts[0]), Comma, ShowAlts(alts[1..]));
  }

  lemma AltsOfParts(ts: seq<Token>, pos: nat, alts: seq<CaseExprAlternative>, p: nat, end: nat)
    requires |alts| > 1 && pos < p < end <= |ts| && IsSym(ts, p, Comma)
    requires ParseCaseExprAlt(ts, pos) == Match(alts[0], p)
    requires ParseCaseExprAlts(ts, p + 1) == Match(alts[1..], end)
    ensures ParseCaseExprAlts(ts, pos) == Match(alts, end)
  {
    assert [alts[0]] + alts[1..] == alts;
  }

  /** The `List(case_expr_alt, sep=",")` of case_expression reads every
      alternative. */
  lemma {:induction false} CaseExprAltsOfShow(ts: seq<Token>, pos: nat, alts: seq<CaseExprAlternative>, end: nat)
    requires PrintableAlts(alts) && At(ts, pos, ShowAlts(alts)) && end == pos + |ShowAlts(alts)| && Closes(ts, end)
    ensures ParseCaseExprAlts(ts, pos) == Match(alts, end)
    decreases |alts|
  {
    ClosesStops(ts, end);
    if |alts| == 1 {
      assert ShowAlts(alts) == ShowAlt(alts[0]);
      CaseExprAltOfShow(ts, pos, alts[0], end);
      assert [alts[0]] == alts;
    } else {
      var p := AltsLayout(ts, pos, alts, end);
      ListFollowStops(ts, p);
      CaseExprAltOfShow(ts, pos, alts[0], p);
      CaseExprAltsOfShow(ts, p + 1, alts[1..], end);
      AltsOfParts(ts, pos, alts, p, end);
    }
  }

  lemma CaseOfParts(ts: seq<Token>, pos: nat, e: Expr, p: nat, end: nat)
    requires e.CaseExpr? && pos < p < end <= |ts| && IsSym(ts, pos, KwCase) && IsSym(ts, p, KwIs)
    requires ParseExpression(ts, pos + 1) == Match(e.expr, p)
    requires ParseCaseExprAlts(ts, p + 1) == Match(e.cases, end)
    ensures ParseCaseExpression(ts, pos) == Match(e, end)
  {
  }

  /** case_expression (exprs.py:288-291) reads the selector and every
      alternative of the printed expression. */
  lemma CaseExpressionOfShow(ts: seq<Token>, pos: nat, e: Expr, end: nat)
    requires PrintableCase(e) && At(ts, pos, ShowCase(e)) && end == pos + |ShowCase(e)| && Closes(ts, end)
    ensures ParseCaseExpression(ts, pos) == Match(e, end)
  {
    var x, alts := Show(e.expr, LE), ShowAlts(e.cases);
    KeywordsAround(ts, pos, KwCase, x, KwIs, alts);
    var p := pos + 1 + |x|;
    KeywordStops(ts, p, KwIs);
    ExpressionOfShow(ts, pos + 1, e.expr, LE);
    CaseExprAltsOfShow(ts, p + 1, e.cases, end);
    CaseOfParts(ts, pos, e, p, end);
  }

  // ---------------------------------------------------------------------
  // Quantified expressions (exprs.py:269-281)

  /** A range source starts with a token that does not start a name. */
  lemma RangeSourceOfShow(ts: seq<Token>, pos: nat, x: Expr, end: nat)
    requires PrintableRange(x) && !LeadsWithName(Show(x.left, LC))
    requires At(ts, pos, ShowRange(x)) && end == pos + |ShowRange(x)| && IsSym(ts, end, Arrow)
    ensures ParseName(ts, pos).NoMatch? && ParseDiscreteRange(ts, pos) == Match(x, end)
    ensures !IsSym(ts, pos, KwReverse)
  {
    AtAroundSym(ts, pos, Show(x.left, LC), DotDot, Show(x.right, LC));
    FirstAt(ts, pos, x.left, LC);
    ShowFirst(x.left, LC);
    AtHead(ts, pos, Show(x.left, LC));
    KeywordStops(ts, end, Arrow);
    DiscreteRangeOfShow(ts, pos, x);
  }

  /** An expression source that is neither a name nor a range. */
  lemma ExpressionSourceOfShow(ts: seq<Token>, pos: nat, x: Expr, end: nat)
    requires Printable(x) && !IsRange(x) && !LeadsWithName(Show(x, LE))
    requires At(ts, pos, Show(x, LE)) && end == pos + |Show(x, LE)| && IsSym(ts, end, Arrow)
    ensures ParseName(ts, pos).NoMatch? && ParseDiscreteRange(ts, pos).NoMatch?
    ensures ParseExpression(ts, pos) == Match(x, end)
    ensures !IsSym(ts, pos, KwReverse)
  {
    FirstAt(ts, pos, x, LE);
    ShowFirst(x, LE);
    AtHead(ts, pos, Show(x, LE));
    KeywordStops(ts, end, Arrow);
    ExpressionOfShow(ts, pos, x, LE);
  }

  /** A name source. */
  lemma NameSourceOfShow(ts: seq<Token>, pos: nat, x: Expr, end: nat)
    requires NameShown(ts, pos, x, end) && IsSym(ts, end, Arrow)
    ensures ParseName(ts, pos) == Match(x, end)
    ensures !IsSym(ts, pos, KwReverse)
  {
    KeywordStops(ts, end, Arrow);
    NameOfShow(ts, pos, x, end);
    AtHead(ts, pos, ShowName(x));
    var r := Root(x);
  }

  /** The source of a printed loop parameter is read as itself: a name by
      the first alternative, a range by the second and any other
      expression by the third. */
  lemma SourceOfShow(ts: seq<Token>, pos: nat, x: Expr, end: nat)
    requires PrintableSource(x) && At(ts, pos, ShowSource(x)) && end == pos + |ShowSource(x)| && IsSym(ts, end, Arrow)
    ensures ParseLoopSource(ts, pos) == Match(x, end)
    ensures !IsSym(ts, pos, KwReverse)
  {
    if PrintableName(x) {
      NameSourceOfShow(ts, pos, x, end);
    } else if IsRange(x) {
      RangeSourceOfShow(ts, pos, x, end);
    } else {
      ExpressionSourceOfShow(ts, pos, x, end);
    }
  }

  lemma SpecLayout(ts: seq<Token>, pos: nat, spec: ForLoopSpec, end: nat) returns (p2: nat)
    requires PrintableSpec(spec) && At(ts, pos, ShowSpec(spec)) && end == pos + |ShowSpec(spec)|
    ensures pos + 1 < |ts| && ts[pos] == spec.id.tok && ts[pos + 1] == IterToken(spec.loopType)
    ensures spec.isReverse ==> IsSym(ts, pos + 2, KwReverse)
    ensures p2 == (if spec.isReverse then pos + 3 else pos + 2)
    ensures At(ts, p2, ShowSource(spec.iterExpr)) && end == p2 + |ShowSource(spec.iterExpr)|
  {
    var head := [spec.id.tok, IterToken(spec.loopType)] + (if spec.isReverse then [Sym(KwReverse)] else []);
    assert ShowSpec(spec) == head + ShowSource(spec.iterExpr);
    AtConcat(ts, pos, head, ShowSource(spec.iterExpr));
    assert ts[pos + 0] == Nth(head, 0);
    assert ts[pos + 1] == Nth(head, 1);
    if spec.isReverse {
      assert ts[pos + 2] == Nth(head, 2);
    }
    p2 := pos + |head|;
  }

  lemma SpecOfParts(ts: seq<Token>, pos: nat, spec: ForLoopSpec, p2: nat, end: nat)
    requires spec.id.Identifier? && pos + 1 < |ts| && ts[pos] == spec.id.tok && spec.id.tok.IdentTok?
    requires ts[pos + 1] == IterToken(spec.loopType)
    requires spec.isReverse <==> IsSym(ts, pos + 2, KwReverse)
    requires p2 == (if spec.isReverse then pos + 3 else pos + 2) && p2 <= end <= |ts|
    requires ParseLoopSource(ts, p2) == Match(spec.iterExpr, end)
    ensures ParseForLoopParameterSpec(ts, pos) == Match(spec, end)
  {
    assert IterTypeOf(ts[pos + 1]) == Some(spec.loopType) by {
      if spec.loopType.InIter? {} else {}
    }
  }

  /** for_loop_parameter_spec (exprs.py:269-274) reads the identifier, the
      kind of iteration, `reverse` exactly when it is printed, and the
      source. */
  lemma ForLoopParameterSpecOfShow(ts: seq<Token>, pos: nat, spec: ForLoopSpec, end: nat)
    requires PrintableSpec(spec) && At(ts, pos, ShowSpec(spec)) && end == pos + |ShowSpec(spec)| && IsSym(ts, end, Arrow)
    ensures ParseForLoopParameterSpec(ts, pos) == Match(spec, end)
  {
    var p2 := SpecLayout(ts, pos, spec, end);
    SourceOfShow(ts, p2, spec.iterExpr, end);
    SpecOfParts(ts, pos, spec, p2, end);
  }

  lemma QuantifiedLayout(ts: seq<Token>, pos: nat, e: Expr, end: nat) returns (p: nat)
    requires PrintableQuantified(e) && At(ts, pos, ShowQuantified(e)) && end == pos + |ShowQuantified(e)|
    ensures pos + 1 < |ts| && IsSym(ts, pos, KwFor) && ts[pos + 1] == QuantifierToken(e.quantifier)
    ensures At(ts, pos + 2, ShowSpec(e.loopSpec)) && p == pos + 2 + |ShowSpec(e.loopSpec)| && IsSym(ts, p, Arrow)
    ensures At(ts, p + 1, Show(e.expr, LE)) && end == p + 1 + |Show(e.expr, LE)|
  {
    var head := [Sym(KwFor), QuantifierToken(e.quantifier)];
    var spec, body := ShowSpec(e.loopSpec), Show(e.expr, LE);
    assert ShowQuantified(e) == (head + spec) + [Sym(Arrow)] + body;
    AtAroundSym(ts, pos, head + spec, Arrow, body);
    AtConcat(ts, pos, head, spec);
    assert ts[pos + 0] == Nth(head, 0);
    assert ts[pos + 1] == Nth(head, 1);
    p := pos + 2 + |spec|;
  }

  lemma QuantifiedOfParts(ts: seq<Token>, pos: nat, e: Expr, p: nat, end: nat)
    requires e.QuantifiedExpr? && pos + 2 <= p < end <= |ts| && IsSym(ts, pos, KwFor)
    requires ts[pos + 1] == QuantifierToken(e.quantifier)
    requires ParseForLoopParameterSpec(ts, pos + 2) == Match(e.loopSpec, p) && IsSym(ts, p, Arrow)
    requires ParseExpression(ts, p + 1) == Match(e.expr, end)
    ensures ParseQuantifiedExpression(ts, pos) == Match(e, end)
  {
    assert QuantifierOf(ts[pos + 1]) == Some(e.quantifier) by {
      if e.quantifier.AllItems? {} else {}
    }
  }

  /** The head of a printed quantified expression and its loop parameter
      are read, up to the `=>` before the predicate. */
  lemma QuantifiedSpecRead(ts: seq<Token>, pos: nat, e: Expr, end: nat) returns (p: nat)
    requires PrintableQuantified(e) && At(ts, pos, ShowQuantified(e)) && end == pos + |ShowQuantified(e)|
    ensures pos + 1 < |ts| && IsSym(ts, pos, KwFor) && ts[pos + 1] == QuantifierToken(e.quantifier)
    ensures ParseForLoopParameterSpec(ts, pos + 2) == Match(e.loopSpec, p) && IsSym(ts, p, Arrow)
    ensures At(ts, p + 1, Show(e.expr, LE)) && end == p + 1 + |Show(e.expr, LE)|
  {
    p := QuantifiedLayout(ts, pos, e, end);
    ForLoopParameterSpecOfShow(ts, pos + 2, e.loopSpec, p);
  }

  /** quantified_expression (exprs.py:276-281) reads the quantifier, the
      loop parameter and the predicate of the printed expression. */
  lemma QuantifiedExpressionOfShow(ts: seq<Token>, pos: nat, e: Expr, end: nat)
    requires PrintableQuantified(e) && At(ts, pos, ShowQuantified(e)) && end == pos + |ShowQuantified(e)|
    requires Closes(ts, end)
    ensures ParseQuantifiedExpression(ts, pos) == Match(e, end)
  {
    var p := QuantifiedSpecRead(ts, pos, e, end);
    ClosesStops(ts, end);
    ExpressionAt(ts, p + 1, e.expr, end);
    QuantifiedOfParts(ts, pos, e, p, end);
  }

  // ---------------------------------------------------------------------
  // conditional_expression (exprs.py:310-311)

  /** conditional_expression tries the three rules in turn; each printed
      expression starts with the keyword of its own rule, so the rules
      before it do not match. */
  lemma ConditionalExpressionOfShow(ts: seq<Token>, pos: nat, e: Expr, end: nat)
    requires PrintableConditional(e) && At(ts, pos, ShowConditional(e)) && end == pos + |ShowConditional(e)|
    requires Closes(ts, end)
    ensures ParseConditionalExpression(ts, pos) == Match(e, end)
  {
    if e.IfExpr? {
      IfExpressionOfShow(ts, pos, e, end);
    } else if e.CaseExpr? {
      AtHead(ts, pos, ShowCase(e));
      CaseExpressionOfShow(ts, pos, e, end);
    } else {
      AtHead(ts, pos, ShowQuantified(e));
      QuantifiedExpressionOfShow(ts, pos, e, end);
    }
  }
}
