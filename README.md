# Ada expression grammar of libadalang, in Dafny

This project models the expression sub-grammar of the libadalang Ada parser
(`ada/language/parser/exprs.py`), and proves properties of the model:

- the expression node family and the `Op`, `Quantifier` and `IterType`
  enumerations, as datatypes (module `Ast`);
- every rule of the rule table, as a function from a token position to
  `Parsed<T>` (`NoMatch`, or the node built and the position after it),
  with the ordered-choice reading of `Or`, `Row`, `Opt` and `List`
  (module `Grammar`, over the abstract tokens of module `Tokens`);
- the name-resolution properties `designated_env`, `scope` and `name` of
  `NamePrefix` and `BaseId`, and `env_elements`, over an abstract store of
  lexical environments (module `NameResolution`);
- a printer from nodes back to tokens, for operator expressions (module
  `RoundTrip`) and for compound phrases (module `Phrases`): the
  independent reference the parser is proved against.

What is proved:

- every rule that succeeds consumes at least one token and stays inside
  the input; the left-recursive `name` rule is a direct name followed by
  postfix extensions, each of which consumes at least one token, so every
  rule terminates;
- every rule builds well-formed nodes: a binary node holds a binary
  operator and well-formed operands, leaves hold tokens of their kind, and
  lists are non-empty where the rule uses a non-empty `List` (module
  `WellFormedness`). Which operators each level of the ladder builds is
  stated by the round trip below, not by well-formedness;
- precedence, associativity and operator priority of the whole ladder
  from `expression` down to `primary`, as one theorem: printing an operator
  expression with the fewest parentheses the grammar needs and parsing the
  tokens gives the expression back, and so the printed form is
  unambiguous (module `RoundTrip`);
- the same round trip for every compound phrase a primary can be, with
  operator expressions in its holes (modules `Phrases`, `PhraseRoundTrip`,
  `NameRoundTrip`, `NameReading`, `ConditionalRoundTrip` and
  `PrimaryReading`): a name with its calls, selections, attribute
  references and qualifications; call suffixes and their parameter
  associations; aggregates with an ancestor part, `null record`,
  choice-list designators and `<>` values; allocators; raise expressions;
  and if, case and quantified expressions. Each rule reads its parts in
  order, an optional part is taken exactly when it is there, and the
  alternatives tried before the right one do not match;
- what the order of the alternatives decides: the postfix extensions of a
  name are tried as call, `.`, `'attribute`, `'qualification`; every
  aggregate designator is a choice list; dropping the `discrete_range`
  alternative of a quantified expression's body leaves the rule's result
  unchanged; the first token alone picks the branch of
  `conditional_expression` (module `Priorities`);
- `designated_env` of an identifier is the parent environment of the
  first entry `env_elements` finds; of a dotted name, it resolves its
  segments left to right whatever its grouping; `name` is the last
  segment; and for the left-nested names `static_name` builds,
  `designated_env` is the lookup of `name` in `scope` (module
  `NameResolution`);
- concrete parses: `1+2*3`, `a - b - c`, `-2**2`, `a + -b`, `2**3**2`,
  `abs a ** 2`, `a = b = c`, `a and then b or else c`, `a in 1 .. 3`,
  `a not in b | others`, `a'Range(1)`, `f(1, b => 2)`,
  `(1, 2, others => 3)`, `(a with 1)`, `(null record)`, `(a => <>)` and
  `a.b.c` (module `Examples`).

The rules `type_expression` and `constrained_type_ref`, which the
allocator and loop-parameter rules use, are defined outside `exprs.py` and
are not part of this model; both are read as `name` here.

Where a rule's alternatives start with the same sub-rule
(`Or(Row(term, op, term), term)`), the model parses the sub-rule once and
then decides. Rules are deterministic, so this is the same result.

`aggregate_field` (exprs.py:317-321) tries `choice_list` first. A choice
is itself a range, an expression or `others`, so its second and third
alternatives never produce a node: `others => 3` in an aggregate gives an
`AggregateMember` holding the one choice `others`, not a bare
`OthersDesignator`. The model follows the rule as written, and
`Priorities.AggregateFieldIsChoiceList` states it.

## Model

| member | source | states |
|---|---|---|
| Grammar.ParseIdentifier | ada/language/parser/exprs.py:258 | matches exactly an identifier token, as an Identifier of that token, consuming it |
| Grammar.ParseEnumIdentifier | ada/language/parser/exprs.py:259 | matches exactly an identifier token, as an EnumIdentifier |
| Grammar.ParseCharLiteral | ada/language/parser/exprs.py:260 | matches exactly a character-literal token, as a CharLiteral |
| Grammar.ParseStringLiteral | ada/language/parser/exprs.py:261 | matches exactly a string-literal token, as a StringLiteral |
| Grammar.ParseNumLiteral | ada/language/parser/exprs.py:262 | matches exactly a number token, as a NumLiteral |
| Grammar.ParseNullLiteral | ada/language/parser/exprs.py:263 | matches exactly `null`, as a NullLiteral |
| Grammar.ParseDiamondExpr | ada/language/parser/exprs.py:313 | matches exactly `<>`, as a DiamondExpr |
| Grammar.ParseOthersDesignator | ada/language/parser/exprs.py:315 | matches exactly `others`, as an OthersDesignator |
| Grammar.ParseAccessDeref | ada/language/parser/exprs.py:365 | matches exactly `all`, as an AccessDeref |
| Grammar.ParseAttribute | ada/language/parser/exprs.py:283-286 | matches exactly one of the five attribute keywords (an Attribute node) or else an identifier, one token, well formed |
| Grammar.ParseDirectName | ada/language/parser/exprs.py:340-341 | matches exactly the tokens a direct name can be, one token; an identifier, string or character token gives the node of that kind holding it, `all` an AccessDeref, an attribute keyword an Attribute of it |
| Grammar.MultiplyingOp | ada/language/parser/exprs.py:391-394 | `*`, `/`, `mod`, `rem` and nothing else are multiplying operators |
| Grammar.UnaryAddingOp | ada/language/parser/exprs.py:399-400 | `+` and `-` and nothing else are signs |
| Grammar.AddingOp | ada/language/parser/exprs.py:406-408 | `+`, `-`, `&` and nothing else are adding operators |
| Grammar.HighestPrecedenceOp | ada/language/parser/exprs.py:382 | `abs` and `not` and nothing else |
| Grammar.RelationalOp | ada/language/parser/exprs.py:445-447 | the six comparison symbols and nothing else are relational operators |
| Grammar.IterTypeOf | ada/language/parser/exprs.py:271 | `in` gives InIter, `of` gives OfIter, nothing else matches |
| Grammar.QuantifierOf | ada/language/parser/exprs.py:277-278 | `all` gives AllItems, `some` gives SomeItems, nothing else matches |
| Grammar.ParseBooleanOp | ada/language/parser/exprs.py:421-425 | matches iff the token is `xor`, `and` or `or`; `and then` and `or else` win over `and` and `or` |
| Grammar.ParseRelOp | ada/language/parser/exprs.py:438-441 | matches iff `in` or `not in`; `not in` is one two-token operator |
| Grammar.ParseExpression | ada/language/parser/exprs.py:455-458 | on success consumes at least one token, stays in the input, and started at an expression-start token |
| Grammar.ParseRelation | ada/language/parser/exprs.py:443-453 | consumes at least one token on success, started at an expression-start token |
| Grammar.ParseSimpleExpr | ada/language/parser/exprs.py:405-411 | consumes at least one token on success, started at an expression-start token |
| Grammar.ParseSimpleExpr2 | ada/language/parser/exprs.py:413-419 | consumes at least one token on success and never starts at a sign |
| Grammar.ParseUnopTerm | ada/language/parser/exprs.py:398-403 | consumes at least one token on success, started at an expression-start token |
| Grammar.ParseTerm | ada/language/parser/exprs.py:390-396 | consumes at least one token on success and never starts at a sign |
| Grammar.ParseFactor | ada/language/parser/exprs.py:381-388 | consumes at least one token on success and never starts at a sign |
| Grammar.ParsePrimary | ada/language/parser/exprs.py:374-379 | consumes at least one token on success, started at a primary-start token |
| Grammar.ParseParenthesized | ada/language/parser/exprs.py:378 | on success spans from a `(` to a `)` |
| Grammar.ParseDiscreteRange | ada/language/parser/exprs.py:427-428 | on success builds an ellipsis BinOp and consumes at least one token |
| Grammar.ParseRangeExpression | ada/language/parser/exprs.py:430-432 | on success builds an ellipsis BinOp |
| Grammar.ParseChoice | ada/language/parser/exprs.py:434 | consumes at least one token on success |
| Grammar.ParseChoiceList | ada/language/parser/exprs.py:436 | on success holds at least one choice |
| Grammar.ParseName | ada/language/parser/exprs.py:355-363 | matches iff the first token can start a direct name; consumes at least one token |
| Grammar.ParseNameSuffixes | ada/language/parser/exprs.py:355-362 | always succeeds, never moves back, stays in the input |
| Grammar.ParseCallArguments | ada/language/parser/exprs.py:356 | on success spans from a `(` to a `)` |
| Grammar.ParseQualifiedOperand | ada/language/parser/exprs.py:360-361 | on success starts at a `(` |
| Grammar.ParseCallSuffix | ada/language/parser/exprs.py:349-353 | consumes at least one token on success |
| Grammar.ParseParamAssocs | ada/language/parser/exprs.py:351-352 | on success holds at least one association |
| Grammar.ParseParamDesignator | ada/language/parser/exprs.py:344 | matches exactly an identifier, `others` or a string literal, one token: an identifier gives ChoiceExpr(Identifier) of it, a string ChoiceExpr(StringLiteral) of it, `others` an OthersDesignator |
| Grammar.ParseParamAssoc | ada/language/parser/exprs.py:343-347 | a designator is present only when `=>` follows it |
| Grammar.ParseAllocator | ada/language/parser/exprs.py:265-267 | on success starts at `new` |
| Grammar.ParseKeywordExpression | ada/language/parser/exprs.py:299 | `Opt(kw, expression)`: consumes nothing exactly when it yields nothing; it yields an expression exactly when `kw` is followed by one, and then it is the expression read after `kw` |
| Grammar.ParseRaiseExpression | ada/language/parser/exprs.py:298-301 | matches iff the token is `raise` (the second alternative always applies), building a RaiseExpression |
| Grammar.ParseIfExpression | ada/language/parser/exprs.py:303-308 | on success starts at `if` |
| Grammar.ParseElsifParts | ada/language/parser/exprs.py:305-306 | the empty-valid list: consumes nothing exactly when it is empty |
| Grammar.ParseElsifExprPart | ada/language/parser/exprs.py:305-306 | on success starts at `elsif` |
| Grammar.ParseCaseExpression | ada/language/parser/exprs.py:288-291 | on success starts at `case` |
| Grammar.ParseCaseExprAlts | ada/language/parser/exprs.py:291 | on success holds at least one alternative |
| Grammar.ParseCaseExprAlt | ada/language/parser/exprs.py:293-295 | on success starts at `when` |
| Grammar.ParseConditionalExpression | ada/language/parser/exprs.py:310-311 | on success starts at `if`, `case` or `for` |
| Grammar.ParseQuantifiedExpression | ada/language/parser/exprs.py:276-281 | on success starts at `for` |
| Grammar.ParseForLoopParameterSpec | ada/language/parser/exprs.py:269-274 | the reverse flag is set exactly when `reverse` follows `in`/`of` |
| Grammar.ParseLoopSource | ada/language/parser/exprs.py:273 | the source of a loop parameter, in the `Or` order: a name when one matches, else a discrete range when one matches, else an expression |
| Grammar.ParseAggregate | ada/language/parser/exprs.py:332-338 | on success builds an Aggregate spanning from a `(` to a `)` |
| Grammar.ParseAggregateContentNull | ada/language/parser/exprs.py:328-330 | matches exactly `null record`, as the null content |
| Grammar.ParseAggregateContent | ada/language/parser/exprs.py:327 | on success builds an AggregateContent |
| Grammar.ParseAggregateAssocs | ada/language/parser/exprs.py:327 | on success holds at least one association |
| Grammar.ParseAggregateAssoc | ada/language/parser/exprs.py:323-326 | consumes at least one token on success |
| Grammar.ParseAggregateField | ada/language/parser/exprs.py:317-321 | consumes at least one token on success |
| Grammar.ParseStaticNameSegment | ada/language/parser/exprs.py:371 | matches exactly an identifier or string literal, one token, as an Identifier or a StringLiteral of that token |
| Grammar.ParseStaticName | ada/language/parser/exprs.py:367-372 | the longest `.`-separated chain of segments, folded into left-nested NamePrefix nodes whose segments are the tokens read; its relative name is the last token read |
| Grammar.ParseStaticNameRest | ada/language/parser/exprs.py:367-372 | extending a chain keeps it left-nested with segments equal to the tokens read, and stops only where no `.` segment follows |
| WellFormedness.ExpressionWellFormed | ada/language/parser/exprs.py:455-458 | every node the expression rule builds is well formed |
| WellFormedness.RelationWellFormed | ada/language/parser/exprs.py:443-453 | relation builds well-formed nodes: a comparison is a binary node over well-formed operands, a membership test has a non-empty list of well-formed choices |
| WellFormedness.SimpleExprWellFormed | ada/language/parser/exprs.py:405-411 | simple_expr builds well-formed nodes |
| WellFormedness.SimpleExpr2WellFormed | ada/language/parser/exprs.py:413-419 | simple_expr_2 builds well-formed nodes |
| WellFormedness.UnopTermWellFormed | ada/language/parser/exprs.py:398-403 | unop_term builds well-formed nodes (a sign is a unary operator) |
| WellFormedness.TermWellFormed | ada/language/parser/exprs.py:390-396 | term builds well-formed nodes |
| WellFormedness.FactorWellFormed | ada/language/parser/exprs.py:381-388 | factor builds well-formed nodes |
| WellFormedness.PrimaryWellFormed | ada/language/parser/exprs.py:374-379 | primary builds well-formed nodes |
| WellFormedness.ParenthesizedWellFormed | ada/language/parser/exprs.py:378 | the parenthesized alternative builds well-formed nodes |
| WellFormedness.DiscreteRangeWellFormed | ada/language/parser/exprs.py:427-428 | discrete_range builds well-formed nodes |
| WellFormedness.ParsedChoiceWellFormed | ada/language/parser/exprs.py:434 | choice builds well-formed choices |
| WellFormedness.ChoiceListWellFormed | ada/language/parser/exprs.py:436 | choice_list builds a non-empty list of well-formed choices |
| WellFormedness.NameWellFormed | ada/language/parser/exprs.py:355-363 | name builds well-formed nodes |
| WellFormedness.NameSuffixesWellFormed | ada/language/parser/exprs.py:355-362 | each postfix extension of a well-formed name is well formed |
| WellFormedness.CallArgumentsWellFormed | ada/language/parser/exprs.py:356 | call arguments are a range or a non-empty list of well-formed associations |
| WellFormedness.QualifiedOperandWellFormed | ada/language/parser/exprs.py:360-361 | the operand of a qualified expression is well formed |
| WellFormedness.ParsedCallSuffixWellFormed | ada/language/parser/exprs.py:349-353 | call_suffix builds well-formed suffixes |
| WellFormedness.ParamAssocsWellFormed | ada/language/parser/exprs.py:351-352 | the association list is non-empty and well formed |
| WellFormedness.ParsedParamAssocWellFormed | ada/language/parser/exprs.py:343-347 | param_assoc builds well-formed associations |
| WellFormedness.AllocatorWellFormed | ada/language/parser/exprs.py:265-267 | allocator builds well-formed nodes |
| WellFormedness.KeywordExpressionWellFormed | ada/language/parser/exprs.py:299 | the optional keyword expression is well formed |
| WellFormedness.RaiseExpressionWellFormed | ada/language/parser/exprs.py:298-301 | raise_expression builds well-formed nodes |
| WellFormedness.IfExpressionWellFormed | ada/language/parser/exprs.py:303-308 | if_expression builds well-formed nodes |
| WellFormedness.ElsifPartsWellFormed | ada/language/parser/exprs.py:305-306 | every elsif part is well formed |
| WellFormedness.ElsifExprPartWellFormed | ada/language/parser/exprs.py:305-306 | one elsif part is well formed |
| WellFormedness.CaseExpressionWellFormed | ada/language/parser/exprs.py:288-291 | case_expression builds well-formed nodes |
| WellFormedness.CaseExprAltsWellFormed | ada/language/parser/exprs.py:291 | the alternatives are non-empty and well formed |
| WellFormedness.CaseExprAltWellFormed | ada/language/parser/exprs.py:293-295 | case_expr_alt builds a well-formed alternative |
| WellFormedness.ConditionalExpressionWellFormed | ada/language/parser/exprs.py:310-311 | conditional_expression builds well-formed nodes |
| WellFormedness.QuantifiedExpressionWellFormed | ada/language/parser/exprs.py:276-281 | quantified_expression builds well-formed nodes |
| WellFormedness.ForLoopParameterSpecWellFormed | ada/language/parser/exprs.py:269-274 | the loop parameter is an identifier and its source is well formed |
| WellFormedness.AggregateWellFormed | ada/language/parser/exprs.py:332-338 | aggregate builds well-formed nodes |
| WellFormedness.AggregateContentWellFormed | ada/language/parser/exprs.py:327 | aggregate_content is a non-empty list of well-formed associations |
| WellFormedness.AggregateAssocsWellFormed | ada/language/parser/exprs.py:327 | the association list is non-empty and well formed |
| WellFormedness.AggregateAssocWellFormed | ada/language/parser/exprs.py:323-326 | aggregate_assoc builds well-formed associations |
| WellFormedness.AggregateFieldWellFormed | ada/language/parser/exprs.py:317-321 | aggregate_field builds well-formed designators |
| RoundTrip.OpTokens | ada/language/parser/exprs.py:68-74 | every operator is spelled with one or two tokens |
| RoundTrip.MultiplyingSpelling | ada/language/parser/exprs.py:391-394 | the multiplying-operator table reads each multiplying operator's spelling back as that operator |
| RoundTrip.AddingSpelling | ada/language/parser/exprs.py:406-408 | the adding-operator table reads each adding operator's spelling back |
| RoundTrip.RelationalSpelling | ada/language/parser/exprs.py:445-447 | the relational-operator table reads each comparison's spelling back |
| RoundTrip.UnaryAt | ada/language/parser/exprs.py:382 | the sign and `abs`/`not` tables read a unary operator's spelling back |
| RoundTrip.BooleanAt | ada/language/parser/exprs.py:421-425 | boolean_op reads a boolean operator's spelling back, `and then`/`or else` included |
| RoundTrip.MembershipAt | ada/language/parser/exprs.py:438-441 | rel_op reads `in` and `not in` back, and neither is a comparison |
| RoundTrip.PrimaryOfShow | ada/language/parser/exprs.py:374-379 | primary parses a literal, an identifier or a parenthesized expression back |
| RoundTrip.FactorOfShow | ada/language/parser/exprs.py:381-388 | factor parses `abs`/`not` of a primary and a single `**` back |
| RoundTrip.TermOfShow | ada/language/parser/exprs.py:390-396 | term parses a right-nested product back |
| RoundTrip.UnopTermOfShow | ada/language/parser/exprs.py:398-403 | unop_term parses a signed term back |
| RoundTrip.SimpleExpr2OfShow | ada/language/parser/exprs.py:413-419 | simple_expr_2 parses a right-nested sum of unsigned terms back |
| RoundTrip.SimpleExprOfShow | ada/language/parser/exprs.py:405-411 | simple_expr parses a sum whose first term may be signed back |
| RoundTrip.RelationOfShow | ada/language/parser/exprs.py:443-453 | relation parses a right-nested comparison back |
| RoundTrip.MembershipOfShow | ada/language/parser/exprs.py:443-453 | relation parses a membership expression over a choice list back |
| RoundTrip.ExpressionOfShow | ada/language/parser/exprs.py:455-458 | expression parses a right-nested boolean chain back, at any position of any input where the printed tokens are followed by a token that cannot extend them |
| RoundTrip.ChoiceOfShow | ada/language/parser/exprs.py:434 | choice parses a range, an expression or `others` back |
| RoundTrip.ChoiceListOfShow | ada/language/parser/exprs.py:436 | choice_list parses a bar-separated list of choices back |
| RoundTrip.ParseOfShow | ada/language/parser/exprs.py:374-458 | parsing the printed form of any operator expression gives it back and consumes every token |
| RoundTrip.ShowInjective | ada/language/parser/exprs.py:374-458 | two operator expressions with the same printed form are equal: the ladder is unambiguous |
| PhraseRoundTrip.ValueOfShow | ada/language/parser/exprs.py:346 | the value of an association: `<>` is not an expression and reads as DiamondExpr; any other printed value is read whole by expression, which is tried first |
| PhraseRoundTrip.DiscreteRangeOfShow | ada/language/parser/exprs.py:427-428 | discrete_range reads a printed `lo .. hi` as the range node of exactly those bounds |
| PhraseRoundTrip.RangeExpressionOfShow | ada/language/parser/exprs.py:430-432 | range_expression reads the same range node |
| PhraseRoundTrip.DesignatorOfToken | ada/language/parser/exprs.py:344 | param designator reads back an identifier, a string literal or `others` from its one token |
| PhraseRoundTrip.ParamAssocOfShow | ada/language/parser/exprs.py:343-347 | param_assoc reads a printed association back: the designator is taken exactly when one and `=>` are printed, and the value follows |
| PhraseRoundTrip.ParamAssocsOfShow | ada/language/parser/exprs.py:351-352 | the comma-separated association list of call_suffix reads every printed association back, in order, and stops at `)` |
| PhraseRoundTrip.CallSuffixOfShow | ada/language/parser/exprs.py:349-353 | call_suffix reads a printed range as the range and a printed association list as a ParamList, never mistaking a list for a range |
| PhraseRoundTrip.CallArgumentsOfShow | ada/language/parser/exprs.py:356 | `(` call_suffix `)` reads the printed suffix back and consumes both brackets |
| PhraseRoundTrip.AggregateAssocOfShow | ada/language/parser/exprs.py:323-326 | aggregate_assoc reads a printed association back: a designator (the choice list before `=>`) exactly when one is printed, then `<>` or the value |
| PhraseRoundTrip.AggregateAssocsOfShow | ada/language/parser/exprs.py:327 | the comma-separated association list of aggregate_content reads every printed association back, in order |
| PhraseRoundTrip.AggregateContentOfShow | ada/language/parser/exprs.py:327-330 | `null record` is read as the null content and nothing else is; printed associations are read as an AggregateContent holding them |
| PhraseRoundTrip.AncestorOfShow | ada/language/parser/exprs.py:335 | the ancestor part is read by expression and ends at `with` |
| PhraseRoundTrip.AggregateOfShow | ada/language/parser/exprs.py:332-338 | aggregate reads a printed aggregate back: the ancestor exactly when `expression with` is printed, `null record` or the association list, up to the closing `)` |
| NameRoundTrip.DirectNameOfToken | ada/language/parser/exprs.py:340-341 | direct_name reads each of its nodes back from the one token it prints as |
| NameRoundTrip.AttributeOfToken | ada/language/parser/exprs.py:283-286 | attribute reads an attribute keyword or an identifier back from its token |
| NameRoundTrip.QualifiedOperandOfShow | ada/language/parser/exprs.py:360-361 | the operand of a qualification: a parenthesized expression is read as that expression, an aggregate that does not print as `(e)` as the aggregate |
| NameRoundTrip.OperandOpensWithParen | ada/language/parser/exprs.py:360-361 | a printed operand starts with `(`, which the attribute alternative does not accept, so a qualification is never read as an attribute reference |
| NameRoundTrip.CallStep | ada/language/parser/exprs.py:356 | after a name, printed call arguments extend it to the CallExpr |
| NameRoundTrip.PrefixStep | ada/language/parser/exprs.py:357 | after a name, `.` and a direct name extend it to the Prefix node |
| NameRoundTrip.AttributeStep | ada/language/parser/exprs.py:358-359 | after a name, `'`, an attribute and its printed arguments (taken exactly when printed) extend it to the AttributeRef |
| NameRoundTrip.QualStep | ada/language/parser/exprs.py:360-361 | after a name, `'` and a printed operand extend it to the QualExpr |
| NameRoundTrip.ExtensionStep | ada/language/parser/exprs.py:355-361 | each printed extension is read as itself by the one alternative of name that builds it |
| NameReading.SuffixesOfShow | ada/language/parser/exprs.py:355-362 | the postfix extensions of a printed name, read from its direct name, rebuild the name extension by extension |
| NameReading.NameOfShow | ada/language/parser/exprs.py:355-363 | name reads a printed name with all its extensions back and stops where it ends |
| NameReading.AllocatorOfShow | ada/language/parser/exprs.py:265-266 | allocator reads `new`, the subpool exactly when `( name )` is printed, and the allocated name |
| NameReading.MessageOfShow | ada/language/parser/exprs.py:299 | the message of a raise expression is read exactly when `with` and an expression are printed |
| NameReading.RaiseExpressionOfShow | ada/language/parser/exprs.py:298-301 | raise_expression reads the exception name exactly when one is printed and its message exactly when `with` follows |
| ConditionalRoundTrip.ElsifExprPartOfShow | ada/language/parser/exprs.py:305-306 | an elsif part reads its condition and its `then` expression back |
| ConditionalRoundTrip.ElsifPartsOfShow | ada/language/parser/exprs.py:305-306 | the empty-valid list of elsif parts reads every printed part back, in order, and nothing when none is printed |
| ConditionalRoundTrip.ElseOfShow | ada/language/parser/exprs.py:307 | the `else` part is read exactly when it is printed |
| ConditionalRoundTrip.IfExpressionOfShow | ada/language/parser/exprs.py:303-308 | if_expression reads the condition, the `then` expression, every elsif part and the `else` part of a printed if expression |
| ConditionalRoundTrip.CaseExprAltOfShow | ada/language/parser/exprs.py:293-295 | case_expr_alt reads `when` choices `=>` expression back |
| ConditionalRoundTrip.CaseExprAltsOfShow | ada/language/parser/exprs.py:291 | the comma-separated alternatives of case_expression are read back in order |
| ConditionalRoundTrip.CaseExpressionOfShow | ada/language/parser/exprs.py:288-291 | case_expression reads the selector and every alternative of a printed case expression |
| ConditionalRoundTrip.RangeSourceOfShow | ada/language/parser/exprs.py:273 | a range source that does not start with a name fails as a name and is read as the range |
| ConditionalRoundTrip.ExpressionSourceOfShow | ada/language/parser/exprs.py:273 | an expression source that starts with no name and is no range fails as a name and as a range and is read as the expression |
| ConditionalRoundTrip.NameSourceOfShow | ada/language/parser/exprs.py:273 | a name source is read as the name, the first alternative |
| ConditionalRoundTrip.SourceOfShow | ada/language/parser/exprs.py:273 | the loop source reads every printed source back as itself |
| ConditionalRoundTrip.ForLoopParameterSpecOfShow | ada/language/parser/exprs.py:269-274 | for_loop_parameter_spec reads the identifier, `in` or `of`, the reverse flag exactly when `reverse` is printed, and the source |
| ConditionalRoundTrip.QuantifiedExpressionOfShow | ada/language/parser/exprs.py:276-281 | quantified_expression reads the quantifier, the loop parameter and the predicate of a printed quantified expression |
| ConditionalRoundTrip.ConditionalExpressionOfShow | ada/language/parser/exprs.py:310-311 | conditional_expression reads a printed if, case or quantified expression back through its own rule |
| PrimaryReading.PrimaryOfNameShow | ada/language/parser/exprs.py:374-379 | primary reads a printed name back, never as a literal |
| PrimaryReading.PrimaryOfAllocatorShow | ada/language/parser/exprs.py:374-379 | primary reads a printed allocator back |
| PrimaryReading.ConditionalOpens | ada/language/parser/exprs.py:310-311 | a printed conditional expression starts with `if`, `case` or `for` |
| PrimaryReading.PrimaryOfConditionalShow | ada/language/parser/exprs.py:374-379 | primary reads a printed conditional expression back |
| PrimaryReading.PrimaryOfRaiseShow | ada/language/parser/exprs.py:374-379 | primary reads a printed raise expression back |
| PrimaryReading.PrimaryOfAggregateShow | ada/language/parser/exprs.py:374-379 | primary reads back an aggregate that does not print as `(e)`: the parenthesized alternative, tried before aggregate, does not match it |
| PrimaryReading.ParenthesizedConditionalOfShow | ada/language/parser/exprs.py:378 | `(`, a printed conditional expression and `)` are read as the conditional expression, the alternative tried first |
| PrimaryReading.PrimaryOfParenthesizedConditional | ada/language/parser/exprs.py:374-379 | primary reads a parenthesized conditional expression as that expression |
| PrimaryReading.PhraseOfShow | ada/language/parser/exprs.py:374-379 | primary reads every printed compound phrase back, at any position where `)` or the end of the input follows |
| PrimaryReading.PhraseParse | ada/language/parser/exprs.py:374-379 | parsing the printed form of any compound phrase gives it back and consumes every token |
| Priorities.TickAttribute | ada/language/parser/exprs.py:358-359 | `'` and an attribute designator make an AttributeRef, taking call arguments when they follow |
| Priorities.TickQualifies | ada/language/parser/exprs.py:360-361 | `'` and a parenthesized expression or aggregate make a QualExpr |
| Priorities.NameEnds | ada/language/parser/exprs.py:355-363 | a name ends exactly where none of the four extensions applies |
| Priorities.AggregateFieldIsChoiceList | ada/language/parser/exprs.py:317-321 | aggregate_field always yields an AggregateMember of the choice list at that position |
| Priorities.DiscreteRangeNeedsExpression | ada/language/parser/exprs.py:276-281 | a discrete range matches only where an expression does |
| Priorities.QuantifiedBodyIsExpression | ada/language/parser/exprs.py:276-281 | quantified_expression gives the same result on every input as the rule with the body `expression` alone: the `discrete_range` alternative never decides |
| Priorities.ConditionalByFirstToken | ada/language/parser/exprs.py:310-311 | `if`, `case` and `for` select if_expression, case_expression and quantified_expression; any other first token makes conditional_expression fail |
| NameResolution.Get | ada/language/parser/exprs.py:142 | `Env.get`: entries are found only for a bound environment and token |
| NameResolution.FirstParent | ada/language/parser/exprs.py:142 | `.at(0).parent_env`: defined exactly for a non-empty sequence, as its first entry's parent |
| NameResolution.EnvElements | ada/language/parser/exprs.py:146-152 | the entries the store binds to the identifier's token in the current environment, in order; none when the token is unbound there |
| NameResolution.DesignatedEnv | ada/language/parser/exprs.py:129-142 | an identifier designates the parent environment of the first of its env_elements (none when nothing is bound); a NamePrefix designates what resolving its segments left to right from the current environment gives, however the nodes group them |
| NameResolution.RelativeName | ada/language/parser/exprs.py:136-144 | `name` is the last segment of a dotted name (`C` for `A.B.C`), and the node's own token for an identifier or a single-token node |
| NameResolution.ResolvePathAppend | ada/language/parser/exprs.py:129-132 | resolving a name made of two parts is resolving the first part, then the second from the environment the first designates |
| NameResolution.Scope | ada/language/parser/exprs.py:134-143 | the current environment for an identifier; the prefix's designated environment for a NamePrefix |
| NameResolution.StaticNameIsBaseName | ada/language/parser/exprs.py:367-372 | a left-nested chain of identifiers is a BaseName |
| NameResolution.StaticNameScopeAndName | ada/language/parser/exprs.py:129-144 | for a left-nested chain, scope resolves all segments but the last, and designated_env is the lookup of `name` in `scope` |
| Examples.SumOfProduct | ada/language/parser/exprs.py:390-419 | `1+2*3` is `1 + (2*3)` |
| Examples.MinusChainNestsRight | ada/language/parser/exprs.py:413-419 | `a - b - c` nests to the right |
| Examples.SignTakesTerm | ada/language/parser/exprs.py:398-403 | `-2**2` is the sign of `2**2` |
| Examples.SignOnlyFirst | ada/language/parser/exprs.py:405-419 | `a + -b` stops after `a` |
| Examples.PowDoesNotChain | ada/language/parser/exprs.py:381-388 | `2**3**2` stops after `2**3` |
| Examples.AbsTakesPrimary | ada/language/parser/exprs.py:381-384 | `abs a ** 2` stops after `abs a` |
| Examples.ComparisonChain | ada/language/parser/exprs.py:443-448 | `a = b = c` nests to the right |
| Examples.ShortCircuitOperators | ada/language/parser/exprs.py:421-458 | `a and then b or else c` uses the two-token operators |
| Examples.MembershipOfRange | ada/language/parser/exprs.py:427-453 | `a in 1 .. 3` is a membership expression over one range |
| Examples.NotInChoices | ada/language/parser/exprs.py:434-453 | `a not in b`, a bar, then `others`, is one `not in` membership expression over two choices |
| Examples.NumberAlone | ada/language/parser/exprs.py:374-458 | a number followed by a token that cannot extend an expression is an expression by itself |
| Examples.AttributeBeforeQualification | ada/language/parser/exprs.py:355-359 | `a'Range(1)` is an AttributeRef with one positional parameter |
| Examples.CallWithNamedParameter | ada/language/parser/exprs.py:343-356 | `f(1, b => 2)` is a call with a positional and a designated parameter |
| Examples.PositionalAssoc | ada/language/parser/exprs.py:317-326 | a number followed by `,` or `)` is an undesignated association |
| Examples.OthersAssoc | ada/language/parser/exprs.py:317-326 | `others => n` is an association designated by the choice list `others` |
| Examples.AggregateAssocList | ada/language/parser/exprs.py:327 | the association list of `(1, 2, others => 3)` |
| Examples.PositionalAggregate | ada/language/parser/exprs.py:332-338 | `(1, 2, others => 3)` is an aggregate, not a parenthesized expression |
| Examples.StaticDottedName | ada/language/parser/exprs.py:367-372 | `a.b.c` is `NamePrefix(NamePrefix(a, b), c)`, whose name is `c` |
| Examples.AncestorAggregate | ada/language/parser/exprs.py:332-338 | `(a with 1)` is an aggregate with ancestor `a` and one positional association |
| Examples.NullRecordAggregate | ada/language/parser/exprs.py:328-338 | `(null record)` is an aggregate with the null content |
| Examples.DiamondAggregate | ada/language/parser/exprs.py:323-338 | `(a => <>)` is an aggregate whose one association is designated by the choice list `a` and has the value `<>` |

## Left out

- The lexer: tokens are an abstract datatype of literal kinds carrying their
  text, and keyword or punctuation tags; case folding of keywords happens
  before this model.
- The langkit engine: memoization of rules and properties, node allocation,
  token retention (`keep=True`, the kept `(` of a call), source ranges,
  diagnostics and `_repr_name` printing. The rules are stated by their
  ordered-choice meaning instead.
- The left-recursive `name` rule is read as a direct name followed by
  postfix extensions; the engine's way of growing a left-recursive result
  is not modelled.
- `type_expression` and `constrained_type_ref` are defined in other files;
  they are read as `name`.
- Building lexical environments and `eval_in_env`: the environment in which
  a property is evaluated is a parameter, and `Env.get` is a lookup in an
  abstract store. `.at(0)` on an empty result is not defined by the code
  shown; it is `None` here.
- RoundTrip.ParseOfShow: the operator round trip covers literals,
  identifiers, unary, binary and membership operators, ranges and `others`
  in choice lists, and parentheses; compound phrases are read back by
  PrimaryReading.PhraseParse instead.
- PrimaryReading.PhraseOfShow: the holes of a phrase (an argument, a bound,
  a condition, a value) are operator expressions; a phrase nested inside
  another phrase's hole, such as a call used as an argument, is not covered
  by the round trip.
- PrimaryReading.PhraseOfShow: a conditional or raise expression is read
  back where `)` or the end of the input follows it; other followers (a
  raise expression inside an operator expression, say) are not covered.
- ConditionalRoundTrip.SourceOfShow: a loop source that is a range or an
  expression starting with a name is not covered, because the first
  alternative of the rule reads that name instead; the round trip covers
  names, and ranges and expressions that start with another token.
- An aggregate of one positional association without an ancestor prints as `(e)` and is read as a parenthesized
  expression, which primary tries first; it is not a phrase of the round
  trip. An attribute reference without arguments is not printed as the
  stem of a call, because its `(` would be read as the attribute's
  arguments.
- Grammar.ParseExpression: its own contract states progress and bounds only; the node it builds is stated by RoundTrip.ExpressionOfShow and WellFormedness.ExpressionWellFormed.
- Grammar.ParseRelation: its own contract states progress and bounds only; the node it builds is stated by RoundTrip.RelationOfShow, RoundTrip.MembershipOfShow and WellFormedness.RelationWellFormed.
- Grammar.ParseSimpleExpr: its own contract states progress and bounds only; the node it builds is stated by RoundTrip.SimpleExprOfShow and WellFormedness.SimpleExprWellFormed.
- Grammar.ParseSimpleExpr2: its own contract states progress and bounds only; the node it builds is stated by RoundTrip.SimpleExpr2OfShow and WellFormedness.SimpleExpr2WellFormed.
- Grammar.ParseUnopTerm: its own contract states progress and bounds only; the node it builds is stated by RoundTrip.UnopTermOfShow and WellFormedness.UnopTermWellFormed.
- Grammar.ParseTerm: its own contract states progress and bounds only; the node it builds is stated by RoundTrip.TermOfShow and WellFormedness.TermWellFormed.
- Grammar.ParseFactor: its own contract states progress and bounds only; the node it builds is stated by RoundTrip.FactorOfShow and WellFormedness.FactorWellFormed.
- Grammar.ParsePrimary: its own contract states progress and bounds only; the node it builds is stated by RoundTrip.PrimaryOfShow and PrimaryReading.PhraseOfShow for printed input, and by WellFormedness.PrimaryWellFormed.
- Grammar.ParseParenthesized: its own contract gives the brackets only; the node, the conditional expression tried before the expression, is stated by RoundTrip.PrimaryOfShow and PrimaryReading.ParenthesizedConditionalOfShow for printed input.
- Grammar.ParseDiscreteRange: its own contract gives the ellipsis node only; its bounds are stated by PhraseRoundTrip.DiscreteRangeOfShow for printed input and by WellFormedness.DiscreteRangeWellFormed.
- Grammar.ParseRangeExpression: its own contract gives the ellipsis node only; its bounds are stated by PhraseRoundTrip.RangeExpressionOfShow for printed input.
- Grammar.ParseChoice: its own contract states progress and bounds only; the node it builds is stated by RoundTrip.ChoiceOfShow and WellFormedness.ParsedChoiceWellFormed.
- Grammar.ParseChoiceList: its own contract states non-emptiness only; the `|`-separated choices are stated by RoundTrip.ChoiceListOfShow for printed input.
- Grammar.ParseName: its own contract states when it matches and progress; the name it builds is stated by NameReading.NameOfShow for printed input and by WellFormedness.NameWellFormed.
- Grammar.ParseNameSuffixes: its own contract states progress and bounds only; each extension is stated by NameRoundTrip.ExtensionStep, NameReading.SuffixesOfShow and the Priorities lemmas.
- Grammar.ParseCallArguments: its own contract gives the brackets only; the suffix inside is stated by PhraseRoundTrip.CallArgumentsOfShow for printed input.
- Grammar.ParseQualifiedOperand: its own contract gives its start only; the operand, the parenthesized expression tried before the aggregate, is stated by NameRoundTrip.QualifiedOperandOfShow for printed input.
- Grammar.ParseCallSuffix: its own contract states progress and bounds only; the suffix it builds is stated by PhraseRoundTrip.CallSuffixOfShow for printed input and by WellFormedness.ParsedCallSuffixWellFormed.
- Grammar.ParseParamAssocs: its own contract states non-emptiness only; the comma-separated associations are stated by PhraseRoundTrip.ParamAssocsOfShow for printed input.
- Grammar.ParseParamAssoc: its own contract states only that a designator is followed by `=>`; that a designator is taken exactly when it and `=>` are there, and that an expression is tried before `<>`, is stated by PhraseRoundTrip.ParamAssocOfShow and PhraseRoundTrip.ValueOfShow for printed input.
- Grammar.ParseAllocator: its own contract gives its start only; the subpool and the allocated name are stated by NameReading.AllocatorOfShow for printed input.
- Grammar.ParseRaiseExpression: its own contract gives when it matches and the node kind; the name and the message are stated by NameReading.RaiseExpressionOfShow for printed input.
- Grammar.ParseIfExpression: its own contract gives its start only; the node is stated by ConditionalRoundTrip.IfExpressionOfShow for printed input.
- Grammar.ParseElsifParts: its own contract states only that it is empty exactly when it consumes nothing; the parts are stated by ConditionalRoundTrip.ElsifPartsOfShow for printed input.
- Grammar.ParseElsifExprPart: its own contract gives its start only; the parts are stated by ConditionalRoundTrip.ElsifExprPartOfShow for printed input.
- Grammar.ParseCaseExpression: its own contract gives its start only; the node is stated by ConditionalRoundTrip.CaseExpressionOfShow for printed input.
- Grammar.ParseCaseExprAlts: its own contract states non-emptiness only; the alternatives are stated by ConditionalRoundTrip.CaseExprAltsOfShow for printed input.
- Grammar.ParseCaseExprAlt: its own contract gives its start only; the choices and the expression are stated by ConditionalRoundTrip.CaseExprAltOfShow for printed input.
- Grammar.ParseConditionalExpression: its own contract gives the start tokens only; the branch taken is stated by Priorities.ConditionalByFirstToken and the node by ConditionalRoundTrip.ConditionalExpressionOfShow for printed input.
- Grammar.ParseQuantifiedExpression: its own contract gives its start only; the node is stated by ConditionalRoundTrip.QuantifiedExpressionOfShow for printed input, and the body by Priorities.QuantifiedBodyIsExpression.
- Grammar.ParseForLoopParameterSpec: its own contract gives the reverse flag only; the identifier, the iteration type and the source are stated by ConditionalRoundTrip.ForLoopParameterSpecOfShow for printed input.
- Grammar.ParseAggregate: its own contract gives the brackets and the node kind; the ancestor and the content are stated by PhraseRoundTrip.AggregateOfShow for printed input.
- Grammar.ParseAggregateContent: its own contract gives the node kind only; the associations are stated by PhraseRoundTrip.AggregateContentOfShow for printed input.
- Grammar.ParseAggregateAssocs: its own contract states non-emptiness only; the associations are stated by PhraseRoundTrip.AggregateAssocsOfShow for printed input.
- Grammar.ParseAggregateAssoc: its own contract states progress and bounds only; the designator and the value are stated by PhraseRoundTrip.AggregateAssocOfShow for printed input.
- Grammar.ParseAggregateField: its own contract states progress and bounds only; the node it builds is stated by Priorities.AggregateFieldIsChoiceList and WellFormedness.AggregateFieldWellFormed.
- WellFormedness.RelationWellFormed: like the other WellFormedness lemmas it allows any binary operator in a binary node; the operator class each level builds is stated by the RoundTrip lemmas.
