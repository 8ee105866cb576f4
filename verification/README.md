# Verified model of cgx

cgx builds and queries call graphs. This project models the parts of it that are pure logic and
proves what they promise. Five groups of modules follow the program's components.

**CQL front end** (`crates/cgx-cql`). `Lexer` and `Parser` are the lexer and the recursive-descent
parser as classes over one cursor; `Lexing`, `Syntax` and `Grammar` are what they are proved against.
`Tiling`, `Canonical`, `Soundness`, `Completeness`, `ParserTheorems`, `Writable` and `QueryText` hold the
theorems about them. `Lowering` turns MATCH patterns into plans and `BindingStream`, `Chains` and `Reachability`
run them over a graph (`CodeGraph`, `Evaluation`); `Meaning`, `Relationships`, `Hops`, `Anchoring`,
`Solutions`, `SingleRows`, `ChainMeaning`, `ChainExactness` and `VariableLength` compare the outcome with
what the written pattern means. `ValueOrder` and `MixedOrder` are the order of values, `Projection`, `Grouping`,
`Aggregates`, `Extrema` and `GroupedProjection` are RETURN.

**Forest renderer** (`crates/cgx-cli/src/forest.rs`). `Forest` and `BucketTwins` prepare the adjacency;
`Rows`, `Budget` and `Tally` are listings under a row budget; `Expansion` and `Branches` are the full mode,
`Spanning`, `Discovery`, `Emission` and `OnceEach` the breadth-first mode.

**Label escapers** (`crates/cgx-cli/src/output.rs`). `Mermaid`, `Directive` and `Escaping` hold the
encoders for Mermaid, DOT and D2 and the decoders they are measured by.

**Identity and matching** (`crates/cgx-core`). `Identity` is the FNV-1a hashing of identity tuples
(section 2 of draft-eastlake-fnv); `SymbolPatterns` is the glob matcher.

**Set and multiset engines** (`crates/cgx-diff`, `crates/cgx-frontend`). `Coupling` and
`CouplingReport` count co-changes, `GraphDiff`, `DiffTheorems` and `DiffFilters` are the graph diff,
`FactOrder` is the canonical order of a file's facts.

`Sequences`, `Sorting`, `Strings`, `Graph`, `Prelude`, `Values`, `Token` and `Ast` are shared.
`dafny verify dfyconfig.toml` checks everything.

Calls into code outside these files become parameters: how an expression evaluates over a binding, which
commits a walk yields, how a path is rendered. Expressions and tokens carry no source spans.

## Findings

Where the code does less than its comments or documentation say, the code is kept, an input that shows
the difference is given, and it is proved exactly when the stronger statement holds.

- The parser, the escapers, the glob matcher, coupling and the diff meet what is claimed for them.
- `anchor_set` keeps one of an anchored end's constraints (`crates/cgx-cql/src/lower.rs:373-383`).
  No solution is lost, but there may be extra ones: `SingleRows.LabelIgnored`. Exactly when evaluation is
  exact on every graph: `Solutions.ExactnessIsDecidedByAnchor`, and for chains
  `ChainExactness.ChainExactnessIsDecidedByStart`.
- The comment on chains says that step 1 chooses its anchor by selectivity
  (`crates/cgx-cql/src/lower.rs:401-406`); the code always takes the start node:
  `SingleRows.FirstStepIgnoresSelectivity`. Exactly when that is the same: `ChainMeaning.FirstStepPlan`.
- The goals of a variable-length walk are said to satisfy the peer constraints
  (`crates/cgx-cql/src/eval.rs:549-551`); a named peer is looked up by its name alone:
  `VariableLength.GoalLabelIgnored`. Exactly when evaluation is exact on every graph:
  `VariableLength.PairExactnessIsDecided`.
- A `path =` binding of a pattern anchored at its end node is reversed
  (`crates/cgx-cql/src/lower.rs:537-545`): `SingleRows.ReversedPath`. Exactly when it is not:
  `SingleRows.PathRunsFromAnchor`.
- A variable written twice is not joined on (`crates/cgx-cql/src/eval.rs:435-464`):
  `SingleRows.RepeatedVariable`. Exactly when a row still names its solution: `SingleRows.RowNames`,
  and for chains `ChainMeaning.WalkIsNamed`.
- The value comparison is said to be a single total order (`crates/cgx-cql/src/value.rs:1-13`). With floats
  among the values it need not be one, and need not agree with equality: `MixedOrder.MixedIsNotAnOrder`.
  Exactly when it is: `MixedOrder.OrderExactly` and `MixedOrder.EqualExactly`.
- `collect` is said to be independent of enumeration order (`crates/cgx-cql/src/eval.rs:940-953`). It sorts by
  representative node alone, so ties stay in stream order: `GroupedProjection.CollectShowsOrder`. Exactly when
  it is independent: `Aggregates.CollectIsOrderBlindExactly`.
- MIN and MAX compare confidence tokens by rank and other strings alphabetically
  (`crates/cgx-cql/src/eval.rs:987-1004`), which is no order on mixed strings:
  `Extrema.MixedStringsHaveNoLeast`. Exactly when the result is independent of enumeration order: over values
  that are not lists, `Extrema.PickIsOrderBlindExactly`; over all groups with elements among given values, in
  lists or alone, `Extrema.ValuesDecideBlindness`.
- De-duplication in the renderer only removes neighbours, and the sort key does not bring identical edges
  together (`crates/cgx-cli/src/forest.rs:133-148`): `Forest.DedupCounterexample`. Exactly when it is
  complete: `BucketTwins.BucketHasNoTwins`.
- The "truncated: N more" tally does not count the rows below a row that was cut
  (`crates/cgx-cli/src/forest.rs:208-213`), though it is called the count of rows trimmed
  (`crates/cgx-cli/src/forest.rs:350-351`): `Expansion.TallyFallsShort`. Exactly when it is that count:
  `Tally.TallyExactly`.
- `canonicalize` is documented as idempotent (`crates/cgx-frontend/src/facts.rs:755-756`). It sorts references
  before tidying the marker lists they are compared by: `FactOrder.OnePassIsNotEnough`. Exactly when one pass is
  enough: `FactOrder.OnceExactly`; two always are: `FactOrder.TwicePerAny`.

## Model

| member | source | states |
|---|---|---|
| ParserTheorems.ParserIsExact | crates/cgx-cql/src/parser.rs:482-694 | On every token list ending in Eof, parsing succeeds with tree `c` and only Eof left over if and only if `c` is an admitted tree and the list is exactly its spelling. The lookaheads for bracketed comprehensions and for pattern predicates therefore never misfire. |
| ParserTheorems.GrammarIsUnambiguous | crates/cgx-cql/src/parser.rs:482-694 | Two admitted trees with the same spelling are the same tree. |
| ParserTheorems.PrintedExprParsesBack | crates/cgx-cql/src/parser.rs:482-694 | Every expression the parser can produce, nested patterns, comprehensions and quantifiers included, is parsed back from its printed tokens, both fully parenthesised and with parentheses only where precedence needs them. |
| ParserTheorems.ParserImage | crates/cgx-cql/src/parser.rs:482-743 | An expression is the result of parsing some token list if and only if it is `Parseable`, a condition on its literals, bounds and patterns alone. |
| ParserTheorems.ParsedIsParseable | crates/cgx-cql/src/parser.rs:482-743 | Whatever an admitted tree stands for is `Parseable`. |
| ParserTheorems.PrintIsFaithful | crates/cgx-cql/src/parser.rs:486-588 | Printing a `Parseable` expression gives an admitted tree that stands for that very expression. |
| ParserTheorems.PathTreeIsFaithful | crates/cgx-cql/src/parser.rs:208-331 | A pattern of a predicate is printed as an admitted pattern tree that stands for it, whichever of the several spellings of a length bound it was written with. |
| Soundness.OrSound | crates/cgx-cql/src/parser.rs:482-496 | A tree returned by the OR level is admitted and spells exactly the tokens consumed. |
| Soundness.OrTailSound | crates/cgx-cql/src/parser.rs:486-496 | The OR loop extends the tree in hand by exactly the tokens it consumes, associating to the left. |
| Soundness.AndSound | crates/cgx-cql/src/parser.rs:497-507 | The same at the AND level; the tree binds at least as strongly as AND. |
| Soundness.AndTailSound | crates/cgx-cql/src/parser.rs:497-507 | The AND loop extends the tree in hand by exactly the tokens it consumes. |
| Soundness.NotSound | crates/cgx-cql/src/parser.rs:508-524 | At the NOT level, a bare pattern predicate is only returned where the parenthesis lookahead announced one. |
| Soundness.PatternPredicateSound | crates/cgx-cql/src/parser.rs:651-672 | A pattern predicate, negated or not, is an admitted pattern with at least one relationship that spells the tokens consumed. |
| Soundness.NegatedSound | crates/cgx-cql/src/parser.rs:508-524 | What follows NOT: a pattern fuses into a negated pattern predicate, anything else is an operand that is not a bare pattern. |
| Soundness.ComparisonSound | crates/cgx-cql/src/parser.rs:525-552 | A comparison has two primary operands and spells the tokens consumed; comparisons do not chain. |
| Soundness.PrimarySound | crates/cgx-cql/src/parser.rs:553-579 | A primary expression is admitted, binds most strongly and spells the tokens consumed. |
| Soundness.FunctionCallSound | crates/cgx-cql/src/parser.rs:589-608 | A call, `f(*)` included, spells the tokens consumed. |
| Soundness.ListCompSound | crates/cgx-cql/src/parser.rs:614-625 | A comprehension, with or without a filter, spells the tokens consumed. |
| Soundness.QuantifierSound | crates/cgx-cql/src/parser.rs:626-650 | A quantifier spells the tokens consumed. |
| Completeness.ExprParses | crates/cgx-cql/src/parser.rs:482-485 | The spelling of an admitted tree, followed by anything that cannot continue an expression, is parsed to that tree and leaves exactly what follows. |
| Completeness.OrParses | crates/cgx-cql/src/parser.rs:486-496 | Parsing the spelling of any admitted tree reaches the OR loop with that tree in hand. |
| Completeness.AndParses | crates/cgx-cql/src/parser.rs:497-507 | Parsing the spelling of a tree that binds at least as strongly as AND reaches the AND loop with that tree in hand. |
| Completeness.NotParses | crates/cgx-cql/src/parser.rs:508-524 | The spelling of a NOT, a pattern predicate or an operand is parsed to that tree; the pattern lookahead stays quiet on every other operand. |
| Completeness.ComparisonParses | crates/cgx-cql/src/parser.rs:525-552 | The spelling of a comparison or an operand is parsed to that tree. |
| Completeness.PrimaryParses | crates/cgx-cql/src/parser.rs:553-650 | The spelling of any primary tree is parsed to that tree. |
| Completeness.PatternPredicateParses | crates/cgx-cql/src/parser.rs:651-672 | The spelling of a pattern with a relationship is read as a pattern predicate. |
| Completeness.PatternStarts | crates/cgx-cql/src/parser.rs:673-694 | The parenthesis lookahead announces every pattern that has a relationship. |
| Completeness.PrimaryIsNotPattern | crates/cgx-cql/src/parser.rs:673-694 | The parenthesis lookahead announces no primary expression, parenthesised ones included. |
| Completeness.OperandIsNotPattern | crates/cgx-cql/src/parser.rs:673-694 | The parenthesis lookahead announces no operand other than a bare pattern. |
| Completeness.ScanExpr | crates/cgx-cql/src/parser.rs:673-694 | Inside parentheses, the lookahead skips the spelling of any admitted expression: it finds an arrow after the matching parenthesis if and only if it would from behind that expression. |
| Completeness.LiteralParses | crates/cgx-cql/src/parser.rs:698-728 | The spelling of a literal, nested lists included, is parsed to that literal. |
| Completeness.PathParses | crates/cgx-cql/src/parser.rs:208-331 | The spelling of a path pattern, with any bounds, types, labels and property maps, is parsed to that pattern. |
| Completeness.RelParses | crates/cgx-cql/src/parser.rs:246-296 | The spelling of a relationship in either direction, bracketed or not, is parsed to it. |
| Completeness.VarLenParses | crates/cgx-cql/src/parser.rs:319-343 | Every spelling of a length bound (`*`, `*n`, `*n..`, `*..m`, `*n..m`) is parsed to it. |
| Completeness.CompParses | crates/cgx-cql/src/parser.rs:609-625 | The spelling of a comprehension is told apart from a list literal and parsed to it. |
| Completeness.QuantParses | crates/cgx-cql/src/parser.rs:626-650 | The spelling of a quantifier is parsed to it. |
| Grammar.ParsePathPattern | crates/cgx-cql/src/parser.rs:208-331 | A pattern that is read is well formed and the tokens consumed are exactly its spelling. |
| Grammar.ParseLiteral | crates/cgx-cql/src/parser.rs:698-743 | A literal that is read is one, and the tokens consumed are exactly its spelling. |
| Grammar.ParsePropMap | crates/cgx-cql/src/parser.rs:344-370 | A property map that is read is well formed and the tokens consumed are exactly its spelling. |
| Grammar.ParseRelPat | crates/cgx-cql/src/parser.rs:246-331 | A relationship that is read is well formed and the tokens consumed are exactly its spelling. |
| Parser.Parser.Bump | crates/cgx-cql/src/parser.rs:46-53 | Returns the current token and advances by one, except that it never moves past Eof; the cursor stays in bounds. |
| Parser.Parser.Eat | crates/cgx-cql/src/parser.rs:54-62 | Consumes the token if and only if it is the one asked for. |
| Parser.Parser.Expect | crates/cgx-cql/src/parser.rs:63-70 | Consumes the token asked for or fails without moving. |
| Parser.Parser.ExpectIdent | crates/cgx-cql/src/parser.rs:75-86 | Consumes an identifier or fails as the grammar says. |
| Parser.Parser.ParseOptIdent | crates/cgx-cql/src/parser.rs:744-753 | Consumes an identifier if there is one. |
| Parser.Parser.ParseLiteral | crates/cgx-cql/src/parser.rs:698-728 | Returns the literal, the error and the remaining tokens that the grammar function gives; the cursor advances on success. |
| Parser.Parser.ParseListLiteral | crates/cgx-cql/src/parser.rs:729-743 | The same for list literals, whose items are pushed in a loop. |
| Parser.Parser.ParsePropMap | crates/cgx-cql/src/parser.rs:344-370 | The same for property maps. |
| Parser.Parser.ParseNodePat | crates/cgx-cql/src/parser.rs:232-245 | The same for node patterns. |
| Parser.Parser.ParseRelTypes | crates/cgx-cql/src/parser.rs:297-318 | The same for alternative relationship types, with the rejection of sub-type qualifiers. |
| Parser.Parser.ParseOptIntU32 | crates/cgx-cql/src/parser.rs:332-343 | The same for an optional bound, which must fit 32 bits. |
| Parser.Parser.ParseVarLen | crates/cgx-cql/src/parser.rs:319-331 | The same for length bounds. |
| Parser.Parser.ParseRelPat | crates/cgx-cql/src/parser.rs:246-296 | The same for relationships. |
| Parser.Parser.ParsePathPattern | crates/cgx-cql/src/parser.rs:208-231 | The same for whole path patterns. |
| Parser.Parser.ParseExpr | crates/cgx-cql/src/parser.rs:482-485 | Terminates with the cursor in bounds on every token list ending in Eof, and returns the expression, the error and the remaining tokens that the grammar gives. |
| Parser.Parser.ParseOr | crates/cgx-cql/src/parser.rs:486-496 | The loop that rebuilds its left operand agrees with the grammar. |
| Parser.Parser.ParseAnd | crates/cgx-cql/src/parser.rs:497-507 | The same for AND. |
| Parser.Parser.ParseNot | crates/cgx-cql/src/parser.rs:508-524 | The same for NOT, including the pattern attempt before it. |
| Parser.Parser.ParseComparison | crates/cgx-cql/src/parser.rs:525-552 | The same for comparisons. |
| Parser.Parser.ParsePrimary | crates/cgx-cql/src/parser.rs:553-579 | The same for primary expressions. |
| Parser.Parser.ParseProperty | crates/cgx-cql/src/parser.rs:580-588 | The same for property chains. |
| Parser.Parser.ParseFunctionCall | crates/cgx-cql/src/parser.rs:589-608 | The same for calls. |
| Parser.Parser.ParseListComp | crates/cgx-cql/src/parser.rs:614-625 | The same for comprehensions. |
| Parser.Parser.ParseQuantifier | crates/cgx-cql/src/parser.rs:626-650 | The same for quantifiers. |
| Parser.Parser.TryPatternPredicate | crates/cgx-cql/src/parser.rs:651-672 | Consumes nothing and answers None if and only if the lookahead announces no pattern; otherwise parses the pattern or fails as the grammar says. |
| Parser.Parser.ParenGroupIsPattern | crates/cgx-cql/src/parser.rs:673-694 | Without moving the cursor, decides whether an arrow follows the matching parenthesis. |
| Parser.Parser.BracketIsComprehension | crates/cgx-cql/src/parser.rs:609-613 | Without moving the cursor, decides whether an identifier and IN follow the bracket. |
| Lexer.Lexer.Tokenize | crates/cgx-cql/src/token.rs:109-120 | The main loop returns exactly the tokens, or the first error, that the specification gives for the rest of the text. |
| Lexer.Lexer.SkipTrivia | crates/cgx-cql/src/token.rs:121-136 | Advances over exactly the blanks and line comments ahead. |
| Lexer.Lexer.NextToken | crates/cgx-cql/src/token.rs:141-224 | Reads exactly the token the remaining text opens with: two-character operators before one-character ones, deferred operators as plan errors. |
| Lexer.Lexer.LexIdent | crates/cgx-cql/src/token.rs:225-235 | Reads the longest identifier and classifies keywords case-insensitively. |
| Lexer.Lexer.LexNumber | crates/cgx-cql/src/token.rs:236-278 | Reads an integer, fraction and exponent, leaving `..` alone, and rejects an integer beyond 64 bits. |
| Lexer.Lexer.LexString | crates/cgx-cql/src/token.rs:279-320 | Reads a string with its escapes up to the closing quote, or fails. |
| Tiling.TokensTile | crates/cgx-cql/src/token.rs:109-136 | The tokens of a text are non-empty, ordered and disjoint, only blanks and comments lie between them, and one Eof closes them at the end of the text. |
| Tiling.TokensStandAlone | crates/cgx-cql/src/token.rs:109-120 | Every token of a text, lexed by itself, is that token and nothing else. |
| Tiling.TextAlone | crates/cgx-cql/src/token.rs:141-320 | The text of a token, cut off where the token ends, is read as the same token. |
| Tiling.NumberAlone | crates/cgx-cql/src/token.rs:236-278 | A number cut off at its end is read to the same end, and is a float if and only if it was one. |
| Tiling.StringAlone | crates/cgx-cql/src/token.rs:279-320 | A string literal cut off at its closing quote has the same value. |
| Tiling.LexOneIsSound | crates/cgx-cql/src/token.rs:141-320 | The lexer's way of reading one token has the two properties the tiling theorems ask for. |
| Canonical.CanonicalRoundTrip | crates/cgx-cql/src/token.rs:109-320 | Canonical token texts (fixed keywords and punctuation, non-keyword identifiers, decimal integers, escaped strings) joined by blanks tokenize back to the same kinds and Eof. |
| Canonical.TextLexes | crates/cgx-cql/src/token.rs:141-320 | A canonical text before a blank or the end is read as its token. |
| Canonical.KeywordText | crates/cgx-cql/src/token.rs:323-353 | The canonical text of every keyword is read as that keyword. |
| Canonical.DecimalDigits | crates/cgx-cql/src/token.rs:236-278 | Decimal text consists of digits whose value is the number. |
| Canonical.StringText | crates/cgx-cql/src/token.rs:279-320 | Escaping a string and scanning it to its closing quote gives the string back. |
| QueryText.TokensSurvive | crates/cgx-cql/src/parser.rs:766-815 | Canonical tokens survive being written out and lexed. |
| QueryText.TextRoundTrip | crates/cgx-cql/src/parser.rs:482-815 | If its names are words that no keyword takes, its integers are unsigned 64-bit ones and it has no floats, an expression survives printing, lexing and parsing; every token of its rendering has a canonical text exactly then. |
| Writable.CleanExpr | crates/cgx-cql/src/parser.rs:482-815 | All tokens an expression is printed as pass a test if and only if its names, numbers and strings do: printing adds only fixed tokens. |
| Forest.New | crates/cgx-cli/src/forest.rs:126-156 | The constructor indexes exactly the out-edges of each node as its sorted, de-duplicated bucket, and counts in-edges of the undeduplicated list. |
| Forest.ByTargetIsPreorder | crates/cgx-cli/src/forest.rs:356-359 | The display key order is total and transitive, so its stable sort is determined. |
| Forest.DedupKeepsKinds | crates/cgx-cli/src/forest.rs:139-148 | De-duplication leaves an edge of every kind that was there, adds none, and leaves no two identical neighbours. |
| Forest.DedupIsComplete | crates/cgx-cli/src/forest.rs:139-148 | A sorted list has no two identical lines after de-duplication if and only if nothing different stands between identical ones. |
| BucketTwins.BucketHasNoTwins | crates/cgx-cli/src/forest.rs:133-148 | A node's prepared edges show no line twice if and only if, among its edges as given, two identical ones have no different one between them that the sort key ties with them. |
| Forest.DedupCounterexample | crates/cgx-cli/src/forest.rs:133-148 | Three edges to one callee, conditional, loop, conditional, keep two identical lines: the sort key does not see the condition. |
| Expansion.NewIsClosed | crates/cgx-cli/src/forest.rs:126-160 | The indexed forest meets what the renderer assumes of it: no empty bucket, and a record for every child. |
| Expansion.RenderFull | crates/cgx-cli/src/forest.rs:164-188 | The full listing is the depth-bounded, ancestor-cut preorder over all roots, cut by the row budget; any depth limit terminates. The tally is the number of rows cut if and only if no hidden row has a child. |
| Expansion.FullWalk.ExpandFull | crates/cgx-cli/src/forest.rs:190-236 | Prints the cut preorder below a node, restores both ancestor stacks, and never goes deeper than there are nodes, since ancestors never repeat. |
| Expansion.FullWalk.ExpandEdge | crates/cgx-cli/src/forest.rs:202-235 | One child: past the budget only the tally grows; otherwise its row is printed and, unless it closes a cycle, its subtree follows. |
| Branches.RowsAreBranches | crates/cgx-cli/src/forest.rs:190-236 | Under a root, the rows are exactly the walks within the depth limit that repeat a node at most at their end, each marked as a cycle if and only if it does. |
| Branches.BranchIsPrinted | crates/cgx-cli/src/forest.rs:190-236 | Every such walk has its row. |
| Branches.RowIsBranch | crates/cgx-cli/src/forest.rs:190-236 | Every row shows such a walk. |
| Budget.TruncationIsHonest | crates/cgx-cli/src/forest.rs:164-236 | With budget B, all root lines and the first min(B, total) child rows are printed, in order; the truncation tally is positive if and only if total exceeds B, and is never more than total - B. When it is exactly that: `Tally.TallyExactly`. |
| Tally.TallyExactly | crates/cgx-cli/src/forest.rs:206-214 | The tally and the children of hidden rows add up to the rows cut; the tally is the number of rows cut if and only if no row past the budget has a child row. |
| Tally.TallyExactlyByDepth | crates/cgx-cli/src/forest.rs:206-214 | Read off the printed depths: the tally is exact if and only if no cut row is deeper than one cut before it. |
| Tally.TallyAndKids | crates/cgx-cli/src/forest.rs:206-236 | In any part of a listing, tallied rows and children of hidden rows make up what was cut. |
| Expansion.TallyFallsShort | crates/cgx-cli/src/forest.rs:206-214 | For every budget B there is a forest, B functions called without calls of their own and one that makes a call, of which two rows are cut and one is tallied. |
| Budget.KeepIsPrefix | crates/cgx-cli/src/forest.rs:206-214 | A budget removes child rows from the end of the whole listing and nothing else. |
| Budget.OneMoreRoot | crates/cgx-cli/src/forest.rs:176-182 | Printing root after root with the budget left over cuts the listing as a whole. |
| Budget.EmitStep | crates/cgx-cli/src/forest.rs:206-214 | One more sibling in a budgeted listing is one step of the walk. |
| Rows.FrontierBounds | crates/cgx-cli/src/forest.rs:208-213 | The tally is a lower bound on the rows cut, and zero only if none was. |
| Rows.CutAppend | crates/cgx-cli/src/forest.rs:208-213 | The tally of two listings one after the other is the sum of their tallies. |
| Spanning.Bfs | crates/cgx-cli/src/forest.rs:240-262 | The queue loop ends as the search function says, with a forest: every visited node has its level, one parent one level up, and a place in that parent's child list, and every edge out of a visited node leads to a node at most one level deeper. |
| Spanning.VisitEdges | crates/cgx-cli/src/forest.rs:250-261 | One node's edges are taken in order: each node not yet visited gets this parent, a place in its child list and in the queue. |
| Spanning.SearchSpans | crates/cgx-cli/src/forest.rs:240-262 | What the search finds is a breadth-first spanning forest. |
| Discovery.FirstFinder | crates/cgx-cli/src/forest.rs:240-262 | The search takes each visited node from the queue once, and the parent of a node is the first one taken that has an edge to it. |
| Spanning.VisitedIsReachable | crates/cgx-cli/src/forest.rs:240-262 | The visited nodes are exactly those reachable from the roots. |
| Spanning.LevelIsDistance | crates/cgx-cli/src/forest.rs:240-262 | A node's level is the length of a shortest walk to it from the root set. |
| Spanning.OneShortestParent | crates/cgx-cli/src/forest.rs:240-262 | Each reachable non-root has exactly one parent, which precedes it on a shortest walk from the roots and lists it once; no root has one. |
| Emission.SortingKeepsInverse | crates/cgx-cli/src/forest.rs:263-266 | Sorting the child lists keeps them the inverse of the parent map. |
| Emission.TreeEdge | crates/cgx-cli/src/forest.rs:336-342 | The edge shown for a tree step is the first one of the sorted bucket, or the default if there is none. |
| Emission.RenderSpanning | crates/cgx-cli/src/forest.rs:240-290 | What is printed is the preorder of the forest the search finds, with sorted children, cut by the row budget, with the tally of the rows it hides. |
| Emission.SpanningIsDetermined | crates/cgx-cli/src/forest.rs:240-290 | One forest gives one spanning listing and one tally. |
| Emission.SpanningTally | crates/cgx-cli/src/forest.rs:300-310 | In the spanning listing too, the tally is the number of rows cut if and only if no hidden row has a child. |
| Emission.EmitSpanning | crates/cgx-cli/src/forest.rs:292-331 | Prints the cut preorder below a node and restores the stack; terminates because children lie one level deeper. |
| OnceEach.EachReachableOnce | crates/cgx-cli/src/forest.rs:240-331 | With budget to spare, every reachable node is printed as often as its root is listed and no other node is printed: exactly once when the roots are distinct. |
| OnceEach.SpanningListsOnce | crates/cgx-cli/src/forest.rs:240-331 | What the spanning command prints, when nothing is cut and the roots are distinct, names every reachable node exactly once and nothing else. |
| OnceEach.RowsUnder | crates/cgx-cli/src/forest.rs:292-331 | Under a node, each of its descendants has one row and nothing else has any. |
| Lowering.NodeConstraints | crates/cgx-cql/src/lower.rs:304-344 | The loop over a node pattern returns the constraint, or the first error, of its specification. |
| Lowering.RelKindsMulti | crates/cgx-cql/src/lower.rs:260-281 | The loop over alternative types returns their kinds and direction flag, or the first error. |
| Lowering.ApplyRelProps | crates/cgx-cql/src/lower.rs:595-617 | The loop over relationship properties returns the tightened filter, or the first error. |
| Lowering.LowerSingle | crates/cgx-cql/src/lower.rs:508-591 | One relationship is planned from its more selective end, as specified. |
| Lowering.LowerPatternChain | crates/cgx-cql/src/lower.rs:411-457 | The loop over the steps of a chain returns its plans, or the first error. |
| Meaning.ConstraintsMean | crates/cgx-cql/src/lower.rs:304-344 | A lowered node constraint is met by exactly the nodes that satisfy the written label and properties. |
| Relationships.FilterMeans | crates/cgx-cql/src/lower.rs:260-301 | The lowered edge filter admits exactly the edges the written relationship does, and the lowered direction runs along the written arrow, MEMBER_OF inversion included. |
| Relationships.OnlyMemberOfInverts | crates/cgx-cql/src/lower.rs:206-254 | MEMBER_OF is the only type stored against its written arrow. |
| Relationships.KindsMean | crates/cgx-cql/src/lower.rs:260-281 | A union of types admits exactly what some type admits, and its members agree on inversion. |
| Relationships.PropsMean | crates/cgx-cql/src/lower.rs:595-617 | The last condition and the last confidence written decide. |
| Anchoring.AnchorIdsMean | crates/cgx-cql/src/eval.rs:426-432 | An anchor set is resolved to exactly the nodes it keeps, each once. |
| Anchoring.MeetsKeeps | crates/cgx-cql/src/lower.rs:373-383 | A node that meets a constraint is kept by its anchor set. |
| Anchoring.AnchorSetIsLossless | crates/cgx-cql/src/lower.rs:373-383 | What the anchor set keeps is all of a constraint if and only if the constraint is `Lossless`: nothing but a string name with names it implies, only kinds, or nothing. |
| Anchoring.LossFreeShapes | crates/cgx-cql/src/lower.rs:373-383 | In particular a lone string name, kinds alone, or nothing is `Lossless`. |
| Hops.HopsFromMean | crates/cgx-cql/src/eval.rs:435-464 | The hops enumerated from the anchors are exactly the admitted edges from an anchor to a node that passes the peer test. |
| Hops.HopsFromOnce | crates/cgx-cql/src/eval.rs:435-464 | No hop is enumerated twice. |
| Solutions.EnumeratesFound | crates/cgx-cql/src/eval.rs:387-464 | Evaluating the plan of a single relationship enumerates exactly the found solutions, each once, whichever end is the anchor. |
| Solutions.NoSolutionLost | crates/cgx-cql/src/lower.rs:508-591 | No solution of the written pattern is lost. |
| Solutions.ExactWhenLossless | crates/cgx-cql/src/lower.rs:508-591 | If the anchored end keeps all it was given, the found solutions are exactly those of the written pattern. |
| Solutions.ExactnessIsDecidedByAnchor | crates/cgx-cql/src/lower.rs:373-591 | Evaluation is exact on every graph if and only if the anchored end is `Lossless`, or nothing at all can stand at the other end. |
| Solutions.ExtraSolution | crates/cgx-cql/src/lower.rs:373-383 | Otherwise a two-node graph shows a solution too many. |
| SingleRows.RowsOfOne | crates/cgx-cql/src/eval.rs:387-464 | One input binding gives one row per enumerated solution, in order. |
| SingleRows.RowNames | crates/cgx-cql/src/eval.rs:435-464 | A row names its solution if and only if the pattern's variables fit together: no later variable overwrites an earlier one with something else. |
| SingleRows.RepeatedVariable | crates/cgx-cql/src/eval.rs:435-464 | A variable written at both ends is bound to the peer alone: the row names the solution if and only if the edge is a loop. |
| SingleRows.PathRunsFromAnchor | crates/cgx-cql/src/lower.rs:537-545 | A path binding is in written order if and only if the start node is the anchor or the edge is a loop; otherwise it is reversed. |
| SingleRows.ReversedPath | crates/cgx-cql/src/lower.rs:537-545 | `p = ()-[r]->(b {name: "x"})` binds `p` from `b` back to the start. |
| SingleRows.LabelledNameIsLossy | crates/cgx-cql/src/lower.rs:373-383 | An anchored end with a label and a name is looked up by name alone. |
| SingleRows.LabelIgnored | crates/cgx-cql/src/lower.rs:373-383 | On a two-node graph, `(a:function {name: "f"})-->(b)` also returns the edge of a method called `f`. |
| Chains.EvalPlans | crates/cgx-cql/src/eval.rs:362-372 | The plans of a chain, run one after the other over the stream. |
| Chains.RowsAreWalks | crates/cgx-cql/src/eval.rs:387-424 | Running the plans of a chain gives one row per walk, in order. |
| Chains.WalksMean | crates/cgx-cql/src/eval.rs:387-424 | The walks are exactly those that take one hop of each plan, each from where the last one ended. |
| Chains.EachWalkOnce | crates/cgx-cql/src/eval.rs:387-424 | No walk is enumerated twice. |
| ChainMeaning.ChainRows | crates/cgx-cql/src/lower.rs:411-506 | A chain of single hops is evaluated to one row per enumerated chain, in order; if a relationship variable overwrites the node the next step starts from, to no row. |
| ChainMeaning.WalksAreFound | crates/cgx-cql/src/lower.rs:411-506 | The enumerated chains are exactly those that match every step, with the start node checked only as far as its anchor set goes. |
| ChainMeaning.ChainsOnce | crates/cgx-cql/src/lower.rs:411-506 | No chain is enumerated twice. |
| ChainMeaning.ChainExact | crates/cgx-cql/src/lower.rs:411-506 | No chain the pattern asks for is lost; if the start node is `Lossless`, no other is found. |
| ChainMeaning.WalkIsNamed | crates/cgx-cql/src/lower.rs:463-506 | A row names the nodes and edges of its chain if and only if repeated variables stand for one node or one edge each: nothing joins on them. |
| ChainMeaning.FirstStepPlan | crates/cgx-cql/src/lower.rs:401-461 | The first plan of a chain is the one its relationship would have alone if and only if selectivity chooses the start node. |
| SingleRows.FirstStepIgnoresSelectivity | crates/cgx-cql/src/lower.rs:401-461 | `()-->(b {name: "x"})` alone is anchored at the name; as the first step of a chain it is anchored at every node. |
| ChainExactness.ChainExactnessIsDecidedByStart | crates/cgx-cql/src/lower.rs:373-506 | Evaluating a chain is exact on every graph if and only if the start node is `Lossless`, or some later node can be nothing at all. |
| BindingStream.Stream.ExpandPattern | crates/cgx-cql/src/eval.rs:387-424 | A variable-length pattern without a path binding yields exactly the first 1024 rows of the uncapped enumeration over all bindings and anchors; from no marker, PathCap is set if and only if there are more; StepBudget is never downgraded. |
| BindingStream.Stream.ExpandVarLength | crates/cgx-cql/src/eval.rs:490-583 | One anchor adds its rows to the capped stream. |
| BindingStream.Stream.ExpandSingleHop | crates/cgx-cql/src/eval.rs:435-464 | One anchor adds one row per admitted hop. |
| BindingStream.Stream.UpgradeTruncation | crates/cgx-cql/src/eval.rs:586-592 | A marker is set or raised, but StepBudget stays. |
| BindingStream.RefusedForGood | crates/cgx-cql/src/eval.rs:565-582 | Once a row is refused, stopping early changes nothing. |
| VariableLength.VarLengthRows | crates/cgx-cql/src/eval.rs:490-583 | Uncapped, a variable-length pattern without a path binding gives one row for each pair of a kept anchor and a goal that the written relationship connects within its bounds, and no other. |
| VariableLength.ReachedIsRouted | crates/cgx-cql/src/eval.rs:565-583 | The walk from the anchored end reaches a node in k steps if and only if k edges of the written relationship lead from written start to written end. |
| VariableLength.NoPairLost | crates/cgx-cql/src/eval.rs:596-610 | No pair the pattern asks for is lost. |
| VariableLength.PairExactnessIsDecided | crates/cgx-cql/src/eval.rs:596-610 | Exact on every graph if and only if the bounds admit no length, or no node can be a goal, or the anchor is `Lossless` and a goal looked up by name is too. |
| VariableLength.GoalLabelIgnored | crates/cgx-cql/src/eval.rs:596-610 | `(b {name: "g"})<-[*]-(a:function {name: "f"})` also finds a method called `f`. |
| Reachability.Within | crates/cgx-query/src/walk.rs:254-299 | The layered walk returns exactly the nodes some admitted walk of a permitted length reaches, the start included when it lies on a cycle. |
| Reachability.LayerAdvances | crates/cgx-query/src/walk.rs:254-299 | The frontier after one more step is the set of nodes at one more edge. |
| Reachability.Drained | crates/cgx-query/src/walk.rs:254-299 | Once a layer is empty, so is every later one, so stopping early is sound. |
| ValueOrder.CompareLaws | crates/cgx-cql/src/value.rs:71-107 | On float-free values, comparing the other way round flips the result and only equal values compare equal. |
| ValueOrder.CompareTransitive | crates/cgx-cql/src/value.rs:71-107 | On float-free values the comparison is transitive. |
| MixedOrder.EqualExactly | crates/cgx-cql/src/value.rs:71-118 | On all values, comparing equal agrees with the derived equality if and only if the two do not clash: no integer meets the float it rounds to, and no NaN meets NaN, at any depth of otherwise alike lists. |
| MixedOrder.CompareFlips | crates/cgx-cql/src/value.rs:71-118 | On all values, comparing the other way round flips the result. |
| MixedOrder.OrderExactly | crates/cgx-cql/src/value.rs:71-118 | On any collection that contains the items of its lists, the comparison is transitive if and only if no float in it is what two different integers in it round to. |
| MixedOrder.RoundedRises | crates/cgx-cql/src/value.rs:76-77 | Rounding an integer to the nearest float, ties to even, is monotone. |
| MixedOrder.MixedIsNotAnOrder | crates/cgx-cql/src/value.rs:71-87 | Both laws fail for 2^53, 2^53 + 1 and the float 2^53. |
| Projection.Project | crates/cgx-cql/src/eval.rs:701-776 | RETURN without aggregates computes the specified table, its path channel included. |
| Projection.ProjectIsDeterministic | crates/cgx-cql/src/eval.rs:701-776 | On float-free rows the table, with DISTINCT, ORDER BY and LIMIT, is a function of the multiset of bindings. |
| Projection.DistinctRows | crates/cgx-cql/src/eval.rs:737-750 | Sorting and de-duplicating lists the same rows in strictly increasing order. |
| Projection.OrdersRows | crates/cgx-cql/src/eval.rs:1008-1053 | The ORDER BY comparison with the row as tie-break is a total order on rows. |
| Projection.SortBindingsDefault | crates/cgx-cql/src/eval.rs:795-819 | Bindings are sorted by representative node and row. |
| Projection.Representative | crates/cgx-cql/src/eval.rs:782-790 | The smallest node bound to any variable, or none if there is none. |
| Grouping.Group | crates/cgx-cql/src/eval.rs:834-852 | The grouping loop partitions the stream by key in first-seen order, or stops at the first key that does not evaluate. |
| Grouping.SeenOnce | crates/cgx-cql/src/eval.rs:837-855 | The group keys are pairwise distinct and are exactly the keys of the bindings. |
| Grouping.GroupingConserves | crates/cgx-cql/src/eval.rs:837-855 | Each binding lies in exactly one group, its own key's, as often as in the stream; no group is empty; the group sizes sum to the number of bindings. |
| GroupedProjection.ProjectGrouped | crates/cgx-cql/src/eval.rs:824-900 | RETURN with aggregates computes the specified grouped table: groups, folded rows, DISTINCT, ORDER BY and LIMIT. |
| GroupedProjection.EmptyStream | crates/cgx-cql/src/eval.rs:854-860 | An all-aggregate RETURN over an empty stream gives one row, of zero counts, empty lists and nulls; with a key it gives none. |
| GroupedProjection.KeysAgree | crates/cgx-cql/src/eval.rs:865-875 | Reading a key from the first binding of a group is reading it from any. |
| GroupedProjection.GroupedIsDeterministic | crates/cgx-cql/src/eval.rs:824-900 | The grouped table is a function of the multiset of bindings wherever every aggregate is `Settled` on every group. |
| GroupedProjection.SettledExactly | crates/cgx-cql/src/eval.rs:914-985 | An aggregate gives one result for all orders of its group if and only if it is `Settled` on it (for MIN and MAX: over values that are not lists). |
| GroupedProjection.CollectShowsOrder | crates/cgx-cql/src/eval.rs:940-953 | Two bindings with one lowest node and different values are collected in stream order. |
| Aggregates.EvalAggregate | crates/cgx-cql/src/eval.rs:914-985 | Each aggregate computes its specification over a group, wrong numbers of arguments and evaluation errors included. |
| Aggregates.CountIsOrderBlind | crates/cgx-cql/src/eval.rs:923-939 | No count depends on the order of its group. |
| Aggregates.CollectIsOrderBlindExactly | crates/cgx-cql/src/eval.rs:940-953 | `collect` depends on the order of its group if and only if two bindings with one representative node contribute different values. |
| Extrema.PickIsOrderBlindExactly | crates/cgx-cql/src/eval.rs:954-981 | Over values that are not lists, MIN and MAX depend on the order of their group if and only if there are elements but no extreme one. |
| Extrema.PickIsOrderBlind | crates/cgx-cql/src/eval.rs:954-981 | Over any values, lists included, an extreme element is chosen in every order. |
| Extrema.PickedIsExtreme | crates/cgx-cql/src/eval.rs:971-980 | What MIN and MAX choose is the extreme element, if there is one. |
| Extrema.OneScaleHasExtreme | crates/cgx-cql/src/eval.rs:987-1004 | There is one whenever confidence tokens do not stand beside other strings. |
| Extrema.MixedStringsHaveNoLeast | crates/cgx-cql/src/eval.rs:987-1004 | `certain`, `d` and `possible` have no least element. |
| Extrema.UntangledHasExtreme | crates/cgx-cql/src/eval.rs:987-1004 | There is an extreme element unless two confidence tokens and another string between them in the alphabet go round in a circle. |
| Extrema.ValuesDecideBlindness | crates/cgx-cql/src/eval.rs:954-1004 | For given values: no group with elements among them, in lists or alone, shows its order through MIN or MAX if and only if no three of the values go round in such a circle. |
| Mermaid.MermaidLabel | crates/cgx-cli/src/output.rs:763-843 | Every label decodes to its input and is inert in its context: no raw hostile character outside an entity, no `#\w+;`, no directive rewrite, on both hash branches. |
| Mermaid.DecodesBack | crates/cgx-cli/src/output.rs:732-843 | Both encodings of a label decode to it. |
| Mermaid.ResidueHarmless | crates/cgx-cli/src/output.rs:732-761 | Outside entities, no character the context acts on is left. |
| Mermaid.NoHashCode | crates/cgx-cli/src/output.rs:732-843 | No encoded label holds a hash, word characters and a semicolon in a row. |
| Mermaid.MermaidInjective | crates/cgx-cli/src/output.rs:822-843 | Labels never collide, not even across contexts or hash branches. |
| Directive.DirectiveLineMatches | crates/cgx-cli/src/output.rs:861-888 | The search with the earliest keyword, the last semicolon and the first reachable hash succeeds if and only if the line splits as the rewrite pattern says. |
| Directive.FirstHashDecides | crates/cgx-cli/src/output.rs:861-888 | The first reachable hash decides: it precedes the last semicolon if and only if the line splits anywhere. |
| Directive.DirectiveRewriteMatches | crates/cgx-cli/src/output.rs:853-859 | Tests every line for either keyword. |
| Directive.LabelDecidesLine | crates/cgx-cli/src/output.rs:844-852 | Testing a label alone decides the emitted line around it. |
| Directive.EmittedWrappers | crates/cgx-cli/src/output.rs:940-965 | The node and edge lines that are emitted are such surroundings. |
| Escaping.DotRoundTrip | crates/cgx-cli/src/output.rs:713-724 | Lexing, object substitution, entity decoding and escape processing together give every label back, in node and edge contexts. |
| Escaping.LexerStage | crates/cgx-cli/src/output.rs:2180-2219 | The lexer stage undoes the quoting of an emitted label. |
| Escaping.SubstitutionStage | crates/cgx-cli/src/output.rs:2221-2253 | Object substitution finds nothing to replace in either context. |
| Escaping.EntityStage | crates/cgx-cli/src/output.rs:2255-2304 | Entity decoding restores the ampersands and nothing else. |
| Escaping.EscapeStage | crates/cgx-cli/src/output.rs:2306-2328 | Escape processing restores the backslashes and line breaks. |
| Escaping.ClosesAtItsEnd | crates/cgx-cli/src/output.rs:631-724 | The quoted string of an emitted DOT or D2 label closes exactly where the emitter closed it. |
| Escaping.DotLabelIsInert | crates/cgx-cli/src/output.rs:2341-2375 | An emitted DOT label leaves no dangling backslash, bare quote or foreign entity. |
| Escaping.DotInjective | crates/cgx-cli/src/output.rs:713-724 | DOT labels never collide. |
| Escaping.DotLabel | crates/cgx-cli/src/output.rs:713-724 | The appending loop computes the encoding the theorems speak of. |
| Escaping.D2RoundTrip | crates/cgx-cli/src/output.rs:631-640 | D2 quoting is undone by unquoting. |
| Escaping.D2Quote | crates/cgx-cli/src/output.rs:631-640 | The appending loop computes the D2 encoding. |
| SymbolPatterns.GlobMatchAt | crates/cgx-core/src/pattern.rs:130-177 | The backtracking matcher terminates and decides the recursive match relation. |
| SymbolPatterns.GlobIsDeclarative | crates/cgx-core/src/pattern.rs:120-177 | A text matches if and only if it can be cut into pieces that the tokens `**`, `*`, `?` and literals cover, a `*` piece holding no place where a separator starts. |
| SymbolPatterns.PlainGlobIsEquality | crates/cgx-core/src/pattern.rs:126-177 | A glob without metacharacters matches exactly its own text. |
| SymbolPatterns.WideningKeepsMatches | crates/cgx-core/src/pattern.rs:130-177 | Widening a `*` to `**` never loses a match. |
| SymbolPatterns.StarIsOneSegment | crates/cgx-core/src/pattern.rs:130-177 | `*` matches exactly the names of one segment, `**` every name. |
| SymbolPatterns.ShortNameOf | crates/cgx-core/src/pattern.rs:101-118 | A short name is a separator-free suffix that is the whole name or follows a separator. |
| SymbolPatterns.ShortName | crates/cgx-core/src/pattern.rs:102-118 | The index loop computes that suffix. |
| Identity.OneByteNeverCollides | crates/cgx-core/src/id.rs:118-122 | Byte streams that differ in exactly one position hash differently, from any state. |
| Identity.StepIsBijective | crates/cgx-core/src/id.rs:118-122 | Each FNV-1a step is a bijection of the 64-bit state. |
| Identity.StepTellsBytesApart | crates/cgx-core/src/id.rs:118-122 | Different bytes take one state to different states. |
| Identity.FoldTellsStatesApart | crates/cgx-core/src/id.rs:118-138 | Different states stay different under the same bytes. |
| Identity.SiteBytesInjective | crates/cgx-core/src/id.rs:59-66 | The encoded bytes determine caller, file, line and column, for strings shorter than 2^32 bytes. |
| Identity.ValueBytesInjective | crates/cgx-core/src/id.rs:85-99 | The encoded bytes determine a value's identity tuple, for strings shorter than 2^32 bytes. |
| Identity.StrThenRest | crates/cgx-core/src/id.rs:131-138 | The length prefix tells a string from what follows it. |
| Identity.LittleEndianInjective | crates/cgx-core/src/id.rs:124-129 | Four bytes determine a 32-bit number. |
| Identity.DeriveSite | crates/cgx-core/src/id.rs:59-66 | The derived id is the hash of the encoded tuple. |
| Identity.DeriveValue | crates/cgx-core/src/id.rs:85-99 | The derived id is the hash of the encoded tuple. |
| Identity.ColumnsNeverCollide | crates/cgx-core/src/id.rs:59-66 | Two call sites on one line of one caller, in different columns below 256, always get different ids. |
| Coupling.CountCommits | crates/cgx-diff/src/coupling.rs:206-283 | After the loop each file and each ordered pair of files is counted once per considered commit that touches it, the four counters classify the commits, and each considered commit of n files has added n(n-1)/2 to the pair counts. |
| Coupling.CountCommit | crates/cgx-diff/src/coupling.rs:215-282 | One commit keeps all counts right. |
| Coupling.CountPairs | crates/cgx-diff/src/coupling.rs:275-282 | The nested loop counts each unordered pair of a commit once, in order, and n(n-1)/2 in all. |
| Coupling.PathsLaws | crates/cgx-diff/src/coupling.rs:261-264 | The sorted, de-duplicated path list has the same paths, strictly increasing. |
| CouplingReport.CouplingOf | crates/cgx-diff/src/coupling.rs:206-308 | The report shows the pairs that reach the threshold under the right counts, most co-changes first, cut to the limit. |
| CouplingReport.CochangesBounded | crates/cgx-diff/src/coupling.rs:285-295 | A pair's co-changes never exceed either file's changes. |
| CouplingReport.CountersPartition | crates/cgx-diff/src/coupling.rs:215-271 | Every commit falls under exactly one counter. |
| CouplingReport.EmptyRangeIsExact | crates/cgx-diff/src/coupling.rs:471-478 | All counters are zero if and only if the range is empty. |
| CouplingReport.KeptBeatsDropped | crates/cgx-diff/src/coupling.rs:300-308 | No pair cut by the limit has more co-changes than one shown. |
| CouplingReport.WalkOrderIsIrrelevant | crates/cgx-diff/src/coupling.rs:206-283 | The tally is the same for any permutation of the commits. |
| CouplingReport.ReportIsReproducible | crates/cgx-diff/src/coupling.rs:206-308 | Two runs on the same commits, walked in any two orders, give the same report. |
| GraphDiff.DiffGraphs | crates/cgx-diff/src/diff.rs:154-221 | The loops compute a diff of the two indexes, each walked in key order. |
| GraphDiff.IndexEdges | crates/cgx-diff/src/diff.rs:131-139 | Edges are indexed by identity; the last of several wins. |
| GraphDiff.ClassifyChange | crates/cgx-diff/src/diff.rs:57-70 | Some change is flagged if and only if the compared attributes differ. |
| DiffTheorems.AddedMeans | crates/cgx-diff/src/diff.rs:162-190 | An edge is reported added (or removed) if and only if its identity is on that side only, and then with that side's record. |
| DiffTheorems.ChangedMeans | crates/cgx-diff/src/diff.rs:169-179 | An edge is reported changed if and only if both sides have its identity with different compared attributes. |
| DiffTheorems.NodesMean | crates/cgx-diff/src/diff.rs:192-211 | A symbol is reported added or removed if and only if it is on one side only. |
| DiffTheorems.DiffIsPatch | crates/cgx-diff/src/diff.rs:154-221 | Removing, adding and replacing the reported edges turns the base's identities and compared attributes into the head's. |
| DiffTheorems.EmptyExactly | crates/cgx-diff/src/diff.rs:100-106 | The diff is empty if and only if both sides have the same identities with the same attributes, and the same symbols. |
| DiffTheorems.SwapTurnsAround | crates/cgx-diff/src/diff.rs:154-221 | Swapping the sides swaps added with removed and turns every change around, in the same order. |
| DiffFilters.ApplyIsFilter | crates/cgx-diff/src/filter.rs:159-218 | Filtering keeps the admitted entries of each list in their order and adds none. |
| DiffFilters.FiltersCommute | crates/cgx-diff/src/filter.rs:159-218 | Filters commute, and applying one twice is applying it once. |
| DiffFilters.FromFlags | crates/cgx-diff/src/filter.rs:42-52 | Some bucket is always selected: the flagged ones, or all. |
| FactOrder.FileFacts.Canonicalize | crates/cgx-frontend/src/facts.rs:761-781 | Sorting and tidying in place gives the canonical form of every vector. |
| FactOrder.CanonicalOfPermuted | crates/cgx-frontend/src/facts.rs:761-781 | The canonical form depends on the multiset of facts alone. |
| FactOrder.OnceExactly | crates/cgx-frontend/src/facts.rs:755-781 | Canonicalizing twice is canonicalizing once if and only if tidying the marker lists puts no two facts the other way round. |
| FactOrder.OncePerTidy | crates/cgx-frontend/src/facts.rs:761-781 | It is, when every marker list is already sorted and without duplicates. |
| FactOrder.TwicePerAny | crates/cgx-frontend/src/facts.rs:761-781 | Canonicalizing twice is always a fixed point. |
| FactOrder.OnePassIsNotEnough | crates/cgx-frontend/src/facts.rs:755-781 | Two references with markers `1, 3` and `2, 1` change places on the second pass. |
| FactOrder.PlainIsCanonical | crates/cgx-frontend/src/facts.rs:761-772 | The vectors without marker lists depend on their multisets alone and are fixed after one pass. |
| DiffTheorems.DiffIsDeterministic | crates/cgx-diff/src/diff.rs:149-153 | Two diffs of the same graphs are equal: key order leaves nothing open. |

## Left out

- Clause-level parsing (MATCH, WITH, RETURN, CALL, ORDER BY, LIMIT), source spans, error wording: expressions and patterns hold the branching.
- Canonical.CanonicalRoundTrip: covers no float literals, whose shortest decimal text comes from the Rust library, and no negative integers, which the lexer has no token for.
- Float literals keep their exact decimal value: `f64` parsing and its rounding are not modelled, nor is the sign of zero.
- Characters stand for bytes in the lexer, the escapers, the globs and the patterns; bytes are modelled in `Identity` only.
- Expression evaluation, WHERE filtering, WITH pipelines, CALL procedures and `pattern_exists`: an evaluation function is a parameter.
- BindingStream.Stream.ExpandPattern: variable-length patterns with a path binding are excluded, because trail enumeration belongs to the walker.
- SingleRows.RepeatedVariable: comma-separated patterns that share a variable are not modelled; the later one re-resolves and overwrites it as the repeated end does here.
- ChainMeaning.ChainRows: chains with a variable-length step are excluded; a single such step is compared with its meaning in `VariableLength`.
- Chains.EvalPlans: plans with variable length are excluded from the loop over a chain; `BindingStream.Stream.ExpandPattern` runs them one at a time.
- GroupedProjection.SettledExactly: for a single group whose MIN or MAX argument is lists, only one half is stated: a binding's elements come in one block, and without an extreme element the group may or may not show its order.
- GroupedProjection.GroupedIsDeterministic: sufficient for the table, not necessary, since LIMIT or DISTINCT may hide a cell that depends on order.
- Projection.ProjectIsDeterministic: stated for float-free rows; where floats keep or break the order is stated for the comparison alone.
- Integers in values are unbounded; the lexer's 64-bit limit and the parser's 32-bit bounds are modelled.
- Text of forest lines: tree prefixes, tags, call-site counts, the wording of the truncation marker.
- Order of discovery within a layer of the bounded walk: its result is sorted, and only the result is stated.
- CouplingReport.EmptyRangeIsExact: the reasons of the approximation contract are not modelled beyond the gate for an empty range.
- Git: the walk over commits and the tree diffs; a list of parent counts and paths is given. Lossy rendering of paths is an arbitrary function.
- `max_candidates` of the edge filter, which no CQL pattern sets.
- JSON, SARIF and table output and the framing of DOT, Mermaid and D2 documents around their labels.
- `content_hash_hex`: the same fold, rendered as digits.
- The scope tree and the erasure of type names in `facts.rs`: simple growth and rewriting.
- Some methods hold one turn of a loop that the program writes inline (`ExpandEdge`, `EmitHops`, `PutInGroup` and others); they change nothing else.
