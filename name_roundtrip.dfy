/** Round trip of names, allocators and raise expressions: reading back
    what the printer in Phrases shows for them yields the same node. */
module NameRoundTrip {
  import opened Tokens
  import opened Ast
  import opened Grammar
  import opened RoundTrip
  import opened Phrases
  import opened PhraseRoundTrip

  // ---------------------------------------------------------------------
  // Names

  /** The operand of a qualified expression: `(e)` is the parenthesized
      alternative, and an aggregate fails it and is read as the aggregate. */
  lemma QualifiedOperandOfShow(ts: seq<Token>, pos: nat, o: Expr)
    requires PrintableOperand(o) && At(ts, pos, ShowOperand(o))
    ensures ParseQualifiedOperand(ts, pos) == Match(o, pos + |ShowOperand(o)|)
  {
    if Printable(o) {
      Enclosed(ts, pos, Show(o, LE));
      ExpressionOfShow(ts, pos + 1, o, LE);
    } else {
      AggregateOpening(ts, pos, o);
      AggregateOfShow(ts, pos, o);
    }
  }

  lemma DirectNameOfToken(ts: seq<Token>, pos: nat, d: Expr)
    requires DirectNameLeaf(d) && pos < |ts| && ts[pos] == DirectNameToken(d)
    ensures ParseDirectName(ts, pos) == Match(d, pos + 1)
  {
  }

  lemma AttributeOfToken(ts: seq<Token>, pos: nat, a: Expr)
    requires AttributeDesignator(a) && pos < |ts| && ts[pos] == a.tok
    ensures ParseAttribute(ts, pos) == Match(a, pos + 1)
  {
  }

  /** When no extension applies, the name ends. */
  lemma NameSuffixesEnd(ts: seq<Token>, n: Expr, p: nat)
    requires p <= |ts| && Stops(ts, p, LP)
    ensures ParseNameSuffixes(ts, n, p) == Match(n, p)
  {
  }

  /** The arguments the printer shows after the name of a call extend
      that name to the call, which ends at `q`. */
  lemma CallStep(ts: seq<Token>, pm: nat, n: Expr, q: nat)
    requires n.CallExpr? && PrintableTail(n) && At(ts, pm, Tail(n)) && q == pm + |Tail(n)|
    ensures q <= |ts|
    ensures ParseNameSuffixes(ts, Stem(n), pm) == ParseNameSuffixes(ts, n, q)
  {
    CallArgumentsOfShow(ts, pm, n.callSuffix);
  }

  /** `.` and a direct name extend the prefix to a selection. */
  lemma PrefixStep(ts: seq<Token>, pm: nat, n: Expr, q: nat)
    requires n.Prefix? && PrintableTail(n) && At(ts, pm, Tail(n)) && q == pm + |Tail(n)|
    ensures q == pm + 2 <= |ts|
    ensures ParseNameSuffixes(ts, Stem(n), pm) == ParseNameSuffixes(ts, n, q)
  {
    assert ts[pm + 0] == Nth(Tail(n), 0);
    assert ts[pm + 1] == Nth(Tail(n), 1);
    DirectNameOfToken(ts, pm + 1, n.suffix);
  }

  /** Where the parts of a printed attribute reference tail lie: `'` at
      `pm`, the designator after it, and the arguments, when present, up
      to `q`. */
  lemma AttributeLayout(ts: seq<Token>, pm: nat, n: Expr, q: nat)
    requires n.AttributeRef? && PrintableTail(n) && At(ts, pm, Tail(n)) && q == pm + |Tail(n)|
    ensures pm + 2 <= q <= |ts| && IsSym(ts, pm, Tick) && ts[pm + 1] == n.attribute.tok
    ensures AttributeDesignator(n.attribute)
    ensures n.args.None? ==> q == pm + 2
    ensures n.args.Some? ==>
      PrintableSuffix(n.args.value) && At(ts, pm + 2, ShowArguments(n.args.value))
      && q == pm + 2 + |ShowArguments(n.args.value)|
  {
    var a := n.attribute;
    var rest := if n.args.Some? then ShowArguments(n.args.value) else [];
    assert Tail(n) == [Sym(Tick), a.tok] + rest;
    AtConcat(ts, pm, [Sym(Tick), a.tok], rest);
    assert ts[pm + 0] == Nth([Sym(Tick), a.tok], 0);
    assert ts[pm + 1] == Nth([Sym(Tick), a.tok], 1);
  }

  /** The name_suffixes rule over the read parts of an attribute
      reference: `'`, the designator, then the arguments or no `(`. */
  lemma AttributeOfParts(ts: seq<Token>, pm: nat, b: Expr, a: Expr, args: Option<CallSuffix>, q: nat)
    requires pm + 2 <= q <= |ts| && IsSym(ts, pm, Tick) && ParseAttribute(ts, pm + 1) == Match(a, pm + 2)
    requires args.None? ==> q == pm + 2 && !IsSym(ts, pm + 2, LParen)
    requires args.Some? ==> ParseCallArguments(ts, pm + 2) == Match(args.value, q)
    ensures ParseNameSuffixes(ts, b, pm) == ParseNameSuffixes(ts, AttributeRef(b, a, args), q)
  {
  }

  /** `'`, an attribute designator, and the arguments when present extend
      the prefix to an attribute reference; without arguments no `(` may
      follow. */
  lemma AttributeStep(ts: seq<Token>, pm: nat, n: Expr, q: nat)
    requires n.AttributeRef? && PrintableTail(n) && At(ts, pm, Tail(n)) && q == pm + |Tail(n)|
    requires n.args.None? ==> !IsSym(ts, q, LParen)
    ensures q <= |ts|
    ensures ParseNameSuffixes(ts, Stem(n), pm) == ParseNameSuffixes(ts, n, q)
  {
    AttributeLayout(ts, pm, n, q);
    AttributeOfToken(ts, pm + 1, n.attribute);
    if n.args.Some? {
      CallArgumentsOfShow(ts, pm + 2, n.args.value);
    }
    AttributeOfParts(ts, pm, n.prefix, n.attribute, n.args, q);
  }

  /** Where the parts of a printed qualified expression tail lie: `'` at
      `pm`, then the operand up to `q`. */
  lemma QualLayout(ts: seq<Token>, pm: nat, n: Expr, q: nat)
    requires n.QualExpr? && PrintableTail(n) && At(ts, pm, Tail(n)) && q == pm + |Tail(n)|
    ensures IsSym(ts, pm, Tick) && PrintableOperand(n.suffix)
    ensures At(ts, pm + 1, ShowOperand(n.suffix)) && q == pm + 1 + |ShowOperand(n.suffix)|
  {
    AtConcat(ts, pm, [Sym(Tick)], ShowOperand(n.suffix));
    AtHead(ts, pm, [Sym(Tick)]);
  }

  /** The name_suffixes rule over the read parts of a qualified
      expression: `'`, no attribute designator, then the operand. */
  lemma QualOfParts(ts: seq<Token>, pm: nat, b: Expr, o: Expr, q: nat)
    requires pm < q <= |ts| && IsSym(ts, pm, Tick) && ParseAttribute(ts, pm + 1).NoMatch?
    requires ParseQualifiedOperand(ts, pm + 1) == Match(o, q)
    ensures ParseNameSuffixes(ts, b, pm) == ParseNameSuffixes(ts, QualExpr(b, o), q)
  {
  }

  /** `'` and a parenthesized operand or an aggregate extend the subtype
      mark to a qualified expression. */
  lemma QualStep(ts: seq<Token>, pm: nat, n: Expr, q: nat)
    requires n.QualExpr? && PrintableTail(n) && At(ts, pm, Tail(n)) && q == pm + |Tail(n)|
    ensures q <= |ts|
    ensures ParseNameSuffixes(ts, Stem(n), pm) == ParseNameSuffixes(ts, n, q)
  {
    QualLayout(ts, pm, n, q);
    OperandOpensWithParen(ts, pm + 1, n.suffix);
    QualifiedOperandOfShow(ts, pm + 1, n.suffix);
    QualOfParts(ts, pm, n.prefix, n.suffix, q);
  }

  /** A printed extension is its printed stem followed by its tail. */
  lemma ExtensionLayout(ts: seq<Token>, start: nat, n: Expr)
    requires PrintableName(n) && IsExtension(n) && At(ts, start, ShowName(n))
    ensures PrintableName(Stem(n)) && PrintableTail(n) && Root(n) == Root(Stem(n))
    ensures At(ts, start, ShowName(Stem(n))) && At(ts, start + |ShowName(Stem(n))|, Tail(n))
    ensures |ShowName(n)| == |ShowName(Stem(n))| + |Tail(n)|
  {
    assert ShowName(n) == ShowName(Stem(n)) + Tail(n);
    AtConcat(ts, start, ShowName(Stem(n)), Tail(n));
  }

  /** The tail of an extension, read after the stem up to `q`, extends
      the stem to the extension. */
  lemma ExtensionStep(ts: seq<Token>, pm: nat, n: Expr, q: nat)
    requires IsExtension(n) && PrintableTail(n) && At(ts, pm, Tail(n)) && q == pm + |Tail(n)|
    requires n.AttributeRef? && n.args.None? ==> !IsSym(ts, q, LParen)
    ensures q <= |ts|
    ensures ParseNameSuffixes(ts, Stem(n), pm) == ParseNameSuffixes(ts, n, q)
  {
    if n.CallExpr? {
      CallStep(ts, pm, n, q);
    } else if n.Prefix? {
      PrefixStep(ts, pm, n, q);
    } else if n.AttributeRef? {
      AttributeStep(ts, pm, n, q);
    } else {
      QualStep(ts, pm, n, q);
    }
  }

  lemma OperandOpensWithParen(ts: seq<Token>, pos: nat, o: Expr)
    requires PrintableOperand(o) && At(ts, pos, ShowOperand(o))
    ensures IsSym(ts, pos, LParen) && ParseAttribute(ts, pos).NoMatch?
  {
    if Printable(o) {
      Enclosed(ts, pos, Show(o, LE));
    } else {
      var p, q := AggregateLayout(ts, pos, o);
    }
  }
}

/** Reading printed names, allocators and raise expressions back, built on
    the one-extension steps of NameRoundTrip. */
module NameReading {
  import opened Tokens
  import opened Ast
  import opened Grammar
  import opened RoundTrip
  import opened Phrases
  import opened PhraseRoundTrip
  import opened NameRoundTrip

  /** A printable name shown from `start` up to `end`. */
  predicate NameShown(ts: seq<Token>, start: nat, n: Expr, end: nat) {
    PrintableName(n) && At(ts, start, ShowName(n)) && end == start + |ShowName(n)|
  }

  /** The tail of an extension whose stem is an attribute reference
      without arguments does not open with `(`. */
  lemma TailOpening(ts: seq<Token>, pm: nat, n: Expr)
    requires IsExtension(n) && PrintableTail(n) && At(ts, pm, Tail(n))
    ensures Stem(n).AttributeRef? && Stem(n).args.None? ==> !IsSym(ts, pm, LParen)
  {
    if !n.CallExpr? {
      AtHead(ts, pm, Tail(n));
    }
  }

  /** The stem of a shown extension is shown at the same place and ends at
      `mid`, where the tail of the extension starts. */
  lemma StemShape(ts: seq<Token>, start: nat, n: Expr, end: nat) returns (mid: nat)
    requires NameShown(ts, start, n, end) && IsExtension(n)
    ensures NameShown(ts, start, Stem(n), mid) && Root(n) == Root(Stem(n))
    ensures PrintableTail(n) && At(ts, mid, Tail(n)) && end == mid + |Tail(n)|
    ensures Stem(n).AttributeRef? && Stem(n).args.None? ==> !IsSym(ts, mid, LParen)
  {
    ExtensionLayout(ts, start, n);
    mid := start + |ShowName(Stem(n))|;
    TailOpening(ts, mid, n);
  }

  /** Reading the extensions after the direct name reaches the whole name,
      which ends at `end`: each extension continues the chain with the
      node the printer shows. No `(` may follow an attribute reference
      without arguments, which would read it as the arguments. */
  lemma {:induction false} SuffixesOfShow(ts: seq<Token>, start: nat, n: Expr, end: nat)
    requires NameShown(ts, start, n, end)
    requires n.AttributeRef? && n.args.None? ==> !IsSym(ts, end, LParen)
    ensures ParseNameSuffixes(ts, Root(n), start + 1) == ParseNameSuffixes(ts, n, end)
    decreases n, 1
  {
    if IsExtension(n) {
      ExtensionSuffixesOfShow(ts, start, n, end);
    } else {
      assert ShowName(n) == [DirectNameToken(n)];
    }
  }

  /** The step of SuffixesOfShow for an extension: its stem is read first. */
  lemma {:induction false} ExtensionSuffixesOfShow(ts: seq<Token>, start: nat, n: Expr, end: nat)
    requires NameShown(ts, start, n, end) && IsExtension(n)
    requires n.AttributeRef? && n.args.None? ==> !IsSym(ts, end, LParen)
    ensures ParseNameSuffixes(ts, Root(n), start + 1) == ParseNameSuffixes(ts, n, end)
    decreases n, 0
  {
    var mid := StemShape(ts, start, n, end);
    ExtensionStep(ts, mid, n, end);
    SuffixesOfShow(ts, start, Stem(n), mid);
  }

  /** name (exprs.py:355-363) reads a printed name back, with every call,
      selection, attribute reference and qualified expression in place,
      up to `end`, the position after it. */
  lemma NameOfShow(ts: seq<Token>, pos: nat, n: Expr, end: nat)
    requires NameShown(ts, pos, n, end) && Stops(ts, end, LP)
    ensures ParseName(ts, pos) == Match(n, end)
  {
    AtHead(ts, pos, ShowName(n));
    SuffixesOfShow(ts, pos, n, end);
    NameSuffixesEnd(ts, n, end);
    DirectNameOfToken(ts, pos, Root(n));
  }

  // ---------------------------------------------------------------------
  // Allocators and raise expressions

  /** Where the parts of a printed allocator lie: `new` at `pos`, the
      subpool name between `(` at `pos + 1` and `)` at `p - 1` when there
      is one, and the allocated name from `p` to `end`. */
  lemma AllocatorLayout(ts: seq<Token>, pos: nat, e: Expr) returns (p: nat, end: nat)
    requires PrintableAllocator(e) && At(ts, pos, ShowAllocator(e))
    ensures end == pos + |ShowAllocator(e)| && IsSym(ts, pos, KwNew)
    ensures e.subpool.None? ==> p == pos + 1 && !IsSym(ts, pos + 1, LParen)
    ensures e.subpool.Some? ==>
      && IsSym(ts, pos + 1, LParen) && pos + 3 <= p
      && NameShown(ts, pos + 2, e.subpool.value, p - 1) && IsSym(ts, p - 1, RParen)
    ensures NameShown(ts, p, e.expr, end) && p < end
  {
    var sub := if e.subpool.Some? then [Sym(LParen)] + ShowName(e.subpool.value) + [Sym(RParen)] else [];
    assert ShowAllocator(e) == [Sym(KwNew)] + sub + ShowName(e.expr);
    AtConcat3(ts, pos, [Sym(KwNew)], sub, ShowName(e.expr));
    AtHead(ts, pos, [Sym(KwNew)]);
    if e.subpool.Some? {
      Enclosed(ts, pos + 1, ShowName(e.subpool.value));
    }
    p, end := pos + 1 + |sub|, pos + 1 + |sub| + |ShowName(e.expr)|;
    AtHead(ts, p, ShowName(e.expr));
    var r := Root(e.expr);
  }

  /** The allocator rule over its read parts: `new`, the subpool name in
      parentheses or no `(`, then the allocated name. */
  lemma AllocatorOfParts(ts: seq<Token>, pos: nat, e: Expr, p: nat, end: nat)
    requires e.Allocator? && pos < p <= end <= |ts| && IsSym(ts, pos, KwNew)
    requires e.subpool.None? ==> p == pos + 1 && !IsSym(ts, pos + 1, LParen)
    requires e.subpool.Some? ==>
      && IsSym(ts, pos + 1, LParen) && pos + 3 <= p
      && ParseName(ts, pos + 2) == Match(e.subpool.value, p - 1) && IsSym(ts, p - 1, RParen)
    requires ParseName(ts, p) == Match(e.expr, end)
    ensures ParseAllocator(ts, pos) == Match(e, end)
  {
  }

  /** allocator (exprs.py:265-267): the subpool is read exactly when `(`
      follows `new`, and the allocator is read up to `end`, the position
      after it. */
  lemma AllocatorOfShow(ts: seq<Token>, pos: nat, e: Expr, end: nat)
    requires PrintableAllocator(e) && At(ts, pos, ShowAllocator(e)) && end == pos + |ShowAllocator(e)|
    requires Stops(ts, end, LP)
    ensures ParseAllocator(ts, pos) == Match(e, end)
  {
    var p, q := AllocatorLayout(ts, pos, e);
    if e.subpool.Some? {
      NameOfShow(ts, pos + 2, e.subpool.value, p - 1);
    }
    NameOfShow(ts, p, e.expr, end);
    AllocatorOfParts(ts, pos, e, p, end);
  }

  /** The message part of a raise expression: `with` and an expression,
      or nothing; either way a name before it ends there. */
  lemma MessageOfShow(ts: seq<Token>, p: nat, m: Option<Expr>)
    requires (m.Some? ==> Printable(m.value)) && At(ts, p, ShowMessage(m)) && Closes(ts, p + |ShowMessage(m)|)
    ensures ParseKeywordExpression(ts, p, KwWith) == (m, p + |ShowMessage(m)|)
    ensures Stops(ts, p, LP)
  {
    ClosesStops(ts, p + |ShowMessage(m)|);
    if m.Some? {
      AtConcat(ts, p, [Sym(KwWith)], Show(m.value, LE));
      AtHead(ts, p, [Sym(KwWith)]);
      ExpressionOfShow(ts, p + 1, m.value, LE);
    }
  }

  /** Where the parts of a printed raise expression with an exception
      name lie: `raise` at `pos`, the name up to `mid`, the message from
      `mid` to `end`. */
  lemma RaiseLayout(ts: seq<Token>, pos: nat, e: Expr) returns (mid: nat, end: nat)
    requires PrintableRaise(e) && e.exceptionName.Some? && At(ts, pos, ShowRaise(e))
    ensures IsSym(ts, pos, KwRaise) && NameShown(ts, pos + 1, e.exceptionName.value, mid)
    ensures At(ts, mid, ShowMessage(e.errorMessage)) && end == mid + |ShowMessage(e.errorMessage)|
    ensures end == pos + |ShowRaise(e)|
  {
    var n := e.exceptionName.value;
    assert ShowRaise(e) == [Sym(KwRaise)] + ShowName(n) + ShowMessage(e.errorMessage);
    AtConcat3(ts, pos, [Sym(KwRaise)], ShowName(n), ShowMessage(e.errorMessage));
    AtHead(ts, pos, [Sym(KwRaise)]);
    mid, end := pos + 1 + |ShowName(n)|, pos + |ShowRaise(e)|;
  }

  /** raise_expression (exprs.py:298-301): the name and the message are
      read when present, and a bare `raise` is the second alternative. */
  lemma RaiseExpressionOfShow(ts: seq<Token>, pos: nat, e: Expr)
    requires PrintableRaise(e) && At(ts, pos, ShowRaise(e)) && Closes(ts, pos + |ShowRaise(e)|)
    ensures ParseRaiseExpression(ts, pos) == Match(e, pos + |ShowRaise(e)|)
  {
    if e.exceptionName.Some? {
      var mid, end := RaiseLayout(ts, pos, e);
      MessageOfShow(ts, mid, e.errorMessage);
      NameOfShow(ts, pos + 1, e.exceptionName.value, mid);
    } else {
      AtHead(ts, pos, ShowRaise(e));
      ClosesStops(ts, pos + 1);
    }
  }
}
