/** The primary rule (exprs.py:374-379) reads back every compound phrase
    module Phrases prints: each phrase starts with a token that the
    alternatives tried before its own do not accept, so `primary` returns
    the phrase read by its own rule. */
module PrimaryReading {
  import opened Tokens
  import opened Ast
  import opened Grammar
  import opened RoundTrip
  import opened Phrases
  import opened PhraseRoundTrip
  import opened NameReading
  import opened ConditionalRoundTrip

  lemma PrimaryOfNameShow(ts: seq<Token>, pos: nat, x: Expr, end: nat)
    requires NameShown(ts, pos, x, end) && Closes(ts, end)
    ensures ParsePrimary(ts, pos) == Match(x, end)
  {
    ClosesStops(ts, end);
    NameOfShow(ts, pos, x, end);
    AtHead(ts, pos, ShowName(x));
    var r := Root(x);
  }

  lemma PrimaryOfAllocatorShow(ts: seq<Token>, pos: nat, x: Expr, end: nat)
    requires PrintableAllocator(x) && At(ts, pos, ShowAllocator(x)) && end == pos + |ShowAllocator(x)|
    requires Closes(ts, end)
    ensures ParsePrimary(ts, pos) == Match(x, end)
  {
    ClosesStops(ts, end);
    AtHead(ts, pos, ShowAllocator(x));
    AllocatorOfShow(ts, pos, x, end);
  }

  /** A printed conditional expression starts with `if`, `case` or `for`. */
  lemma ConditionalOpens(ts: seq<Token>, pos: nat, x: Expr)
    requires PrintableConditional(x) && At(ts, pos, ShowConditional(x))
    ensures IsSym(ts, pos, KwIf) || IsSym(ts, pos, KwCase) || IsSym(ts, pos, KwFor)
  {
    if x.IfExpr? {
      AtHead(ts, pos, ShowIf(x));
    } else if x.CaseExpr? {
      AtHead(ts, pos, ShowCase(x));
    } else {
      AtHead(ts, pos, ShowQuantified(x));
    }
  }

  lemma PrimaryOfConditionalShow(ts: seq<Token>, pos: nat, x: Expr, end: nat)
    requires PrintableConditional(x) && At(ts, pos, ShowConditional(x)) && end == pos + |ShowConditional(x)|
    requires Closes(ts, end)
    ensures ParsePrimary(ts, pos) == Match(x, end)
  {
    ConditionalOpens(ts, pos, x);
    ConditionalExpressionOfShow(ts, pos, x, end);
  }

  lemma PrimaryOfRaiseShow(ts: seq<Token>, pos: nat, x: Expr, end: nat)
    requires PrintableRaise(x) && At(ts, pos, ShowRaise(x)) && end == pos + |ShowRaise(x)| && Closes(ts, end)
    ensures ParsePrimary(ts, pos) == Match(x, end)
  {
    AtHead(ts, pos, ShowRaise(x));
    RaiseExpressionOfShow(ts, pos, x);
  }

  /** An aggregate that does not print as `(e)` is not read as a
      parenthesized expression: after its `(` there is no conditional
      expression, and the expression read there, if any, is not followed
      by `)`. */
  lemma PrimaryOfAggregateShow(ts: seq<Token>, pos: nat, x: Expr, end: nat)
    requires PrintableAggregate(x) && !SinglePositional(x) && At(ts, pos, ShowAggregate(x))
    requires end == pos + |ShowAggregate(x)|
    ensures ParsePrimary(ts, pos) == Match(x, end)
  {
    AggregateOpening(ts, pos, x);
    assert ParseConditionalExpression(ts, pos + 1).NoMatch?;
    assert ParseParenthesized(ts, pos).NoMatch?;
    AggregateOfShow(ts, pos, x);
  }

  /** The parenthesized alternative of primary (exprs.py:378) tries a
      conditional expression before an expression: `(` and a printed
      conditional expression and `)` give the conditional expression. */
  lemma ParenthesizedConditionalOfShow(ts: seq<Token>, pos: nat, x: Expr, end: nat)
    requires PrintableConditional(x) && IsSym(ts, pos, LParen) && At(ts, pos + 1, ShowConditional(x))
    requires end == pos + 1 + |ShowConditional(x)| && IsSym(ts, end, RParen)
    ensures ParseParenthesized(ts, pos) == Match(x, end + 1)
  {
    ConditionalExpressionOfShow(ts, pos + 1, x, end);
  }

  lemma PrimaryOfParenthesizedConditional(ts: seq<Token>, pos: nat, x: Expr, end: nat)
    requires PrintableConditional(x) && IsSym(ts, pos, LParen) && At(ts, pos + 1, ShowConditional(x))
    requires end == pos + 1 + |ShowConditional(x)| && IsSym(ts, end, RParen)
    ensures ParsePrimary(ts, pos) == Match(x, end + 1)
  {
    ParenthesizedConditionalOfShow(ts, pos, x, end);
  }

  /** primary (exprs.py:374-379) reads every printed compound phrase that
      ends the input or is followed by `)`. */
  lemma PhraseOfShow(ts: seq<Token>, pos: nat, x: Expr, end: nat)
    requires PrintablePhrase(x) && At(ts, pos, ShowPhrase(x)) && end == pos + |ShowPhrase(x)| && Closes(ts, end)
    ensures ParsePrimary(ts, pos) == Match(x, end)
  {
    if PrintableName(x) {
      PrimaryOfNameShow(ts, pos, x, end);
    } else if x.Allocator? {
      PrimaryOfAllocatorShow(ts, pos, x, end);
    } else if x.RaiseExpression? {
      PrimaryOfRaiseShow(ts, pos, x, end);
    } else if x.Aggregate? {
      PrimaryOfAggregateShow(ts, pos, x, end);
    } else {
      PrimaryOfConditionalShow(ts, pos, x, end);
    }
  }

  /** The whole printed phrase is read as one primary. */
  lemma PhraseParse(x: Expr)
    requires PrintablePhrase(x)
    ensures ParsePrimary(ShowPhrase(x), 0) == Match(x, |ShowPhrase(x)|)
  {
    var ts := ShowPhrase(x);
    AtSuffix(ts, 0);
    assert ts[0..] == ts;
    PhraseOfShow(ts, 0, x, |ts|);
  }
}
