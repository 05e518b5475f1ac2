/** Abstract tokens consumed by the expression grammar.

    The lexer is not part of this model: a token is either one of the four
    literal-bearing kinds (identifier, number, character literal, string
    literal) carrying its text, or one of the fixed keywords and symbols the
    expression rules match by spelling. Keywords are case-folded by the
    lexer, so `Range` and `range` are the same `KwRange` token here. */
module Tokens {

  datatype Symbol =
    // keywords
    | KwAbs | KwAccess | KwAll | KwAnd | KwCase | KwDelta | KwDigits
    | KwElse | KwElsif | KwFor | KwIf | KwIn | KwIs | KwMod | KwNew
    | KwNot | KwNull | KwOf | KwOr | KwOthers | KwRaise | KwRange
    | KwRecord | KwRem | KwReverse | KwSome | KwThen | KwWhen | KwWith
    | KwXor
    // punctuation
    | LParen | RParen | Dot | Tick | Comma | Arrow | DotDot | Diamond | Bar
    | Equal | NotEqual | Less | LessEqual | Greater | GreaterEqual
    | PlusSign | MinusSign | Star | Slash | StarStar | Ampersand

  datatype Token =
    | IdentTok(text: string)
    | NumberTok(text: string)
    | CharTok(text: string)
    | StringTok(text: string)
    | Sym(symbol: Symbol)

  /** The keywords the `attribute` rule accepts as an attribute designator. */
  predicate IsAttributeKeyword(t: Token) {
    t == Sym(KwAccess) || t == Sym(KwDelta) || t == Sym(KwDigits)
    || t == Sym(KwMod) || t == Sym(KwRange)
  }

  /** Tokens a `direct_name` can start with. */
  predicate IsDirectNameStart(t: Token) {
    t.IdentTok? || t.StringTok? || t.CharTok? || t == Sym(KwAll) || IsAttributeKeyword(t)
  }

  /** Tokens a `primary` can start with. */
  predicate IsPrimaryStart(t: Token) {
    t.NumberTok? || t == Sym(KwNull) || IsDirectNameStart(t) || t == Sym(KwNew)
    || t == Sym(KwIf) || t == Sym(KwCase) || t == Sym(KwFor) || t == Sym(KwRaise)
    || t == Sym(LParen)
  }

  /** Tokens a `factor` or `term` can start with. */
  predicate IsFactorStart(t: Token) {
    IsPrimaryStart(t) || t == Sym(KwAbs) || t == Sym(KwNot)
  }

  /** Tokens an `unop_term`, `simple_expr`, `relation` or `expression` can start with. */
  predicate IsExpressionStart(t: Token) {
    IsFactorStart(t) || t == Sym(PlusSign) || t == Sym(MinusSign)
  }
}
