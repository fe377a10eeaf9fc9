# Verified model of the Ascend C code map engine

The engine under `src/ascendc_codemap_mcp/engine/` reads C++ sources and states facts about them: under which
conditions a write runs, which includes a preprocessor may enter, what an argument stands for, which sources have to be
extracted again. This project models the algorithms that decide those facts and proves what they may be relied on for.
Code that computes values is modelled by functions; code that moves a cursor, fills a table or overwrites a buffer is
modelled by methods and classes, each proved equal to a function or to a property, and the theorems are about these.

Check the whole project with `dafny verify dfyconfig.toml` (Dafny 4.11).

## The parts

- **Guards** (`GuardSyntax`, `GuardSemantics`, `GuardSoundness`, `GuardEndings`, `GuardClaims`, `GuardExactness`,
  `GuardLimits`, `GuardWalker`, `GuardCoverage`, `GuardKinds`).
  A statement tree runs in a world that says, each time a condition is decided, which conditions are true at that
  moment; a run ends normally, by `return`, `break`, `continue` or `throw`, or is cut short when the world is used up,
  so the runs over all worlds are the finite beginnings of all runs, unending loops included. A condition's site holds
  the value it had when it was last decided; a link that is taken also gives the links it skips their value at that
  moment. Against this the walker's guards are sound wherever what a statement claims for its later siblings is
  justified; which statements those are is decided on the tree, for every tree; and on a loop-free class the guards are
  exact. What is recorded, for which sites, under which guards and in which order is also told by places in the tree.
- **Expressions** (`ExprIr`, `CppExpr`, `TemplateLists`, `CppExprRoundTrip`, `CppExprErrors`, `LessThanCount`,
  `TemplateArgs`). The precedence-climbing parser on tokens, total on every token list; any correctly parenthesised
  writing of a tree, minimal or redundant, with fields, method calls, casts and lists in braces, parses back to the tree
  with all tokens consumed, and no writing is shorter than the rendering. Erasing template arguments first, as
  `parse_expr` does, keeps exactly the trees in whose text nothing looks like a template call; behind it the parser
  meets no template argument list. What is made of text that breaks off or is no expression is stated as well.
  Precedences are those of section 7.6 of ISO/IEC 14882:2020.
- **Preprocessor** (`Preprocessor`, `PreprocessorGroups`). The stack of three-valued frames against conditional
  inclusion as section 15.2 of ISO/IEC 14882:2020 defines it, for every truth of the conditions that evaluation leaves
  unknown; and, on any directives, against the groups that are open.
- **Capability predicates** (`IsCapable`). Bodies whose declarations are re-evaluated at each use, against the
  evaluation of each declaration once, and the answers against runs statement by statement.
- **Graphs** (`PipeOrder`, `CodemapPath`, `QuotedIncludes`, `IncludeClosure`, `StructEmit`, `StructFields`,
  `ParamBindings`, `ParamLinks`, `ParamRanks`). A Kahn order with keys, a bounded breadth-first path, the include graph and its reverse closure behind
  incremental extraction, the order structs are emitted in, and the memoised expansion of arguments through callers.
- **Bits and text** (`TilingKey`, `CppLex`, `CppPieces`, `QuotedBrackets`, `QuotedPieces`, `ArchGates`,
  `ArchGateText`, `ArchGateGuards`, `ArchGateMeaning`). Tiling keys under 64 bits, the masker of comments and literals, bracket matchers in both
  directions and what they see of quoted text, and the rewriting of architecture gates.

## What turned out not to hold

- `!(outer) || inner`, emitted for every link of a chain without negating the earlier links
  (`clang_walk.py:2286-2302`), is not justified for later links: some run through the first branch refutes a claim of a
  later link if and only if there is such a claim and the first branch can fall through (`LaterClaimsRefutedIff`,
  where falling through is decided on the tree, `CanEndIff`). What a statement claims holds after all its runs if and
  only if it is clean: nowhere in the part that is claimed does a branch that can fall through stand before a link that
  claims something (`JustifiedIffClean`). Clean bodies are sound in every world (`CleanBodiesAreSound`); for the others
  soundness supposes that a link with guards inside is never true together with an earlier link of its chain.
- Erasing template arguments does not always keep the tree: it does if and only if no `name<...>(` starts in the text
  (`TreeSurvivesIff`); `a < b > (c)` is read as a call (`ComparisonsReadAsCall`).
- A named cast ends its expression: in `static_cast<T>(p)->f` the member is left unread, where section 7.6 of
  ISO/IEC 14882:2020 takes it of the cast (`NamedCastInverts`).
- Incremental extraction keeps sources it should not. A quoted include is resolved among the files confirmed now, so a
  header that is confirmed no more has no includers, and its includers are kept (`RemovedHeaderIsForgotten`,
  `RemovedHeaderInput`); and a stamp reuses the recorded sha of a file changed within the same time and size
  (`RewrittenSourceIsKept`). A kept source is wrong to keep if and only if it led to a removed file in the previous
  include graph, or leads in either graph to a file rewritten behind its time and size (`KeptWronglyIff`); sources that
  are not kept are never right to keep, so reuse is exact if and only if no kept source is of that kind
  (`ReuseIsRightIff`).
- `IsCapable` bodies that declare a name after an initialiser mentioned it may get another verdict than evaluating each
  declaration in its place gives (`RedeclarationDiffers`); declaring a name again that no initialiser mentions is
  harmless. A name used in its own initialiser is evaluated without end (`SelfReferenceNeverEnds`). The look-ups end,
  however often names are declared again, when no declaration leads back to its own name (`RankedBodyEnds`).
- A struct in a cycle of field types cannot follow what its fields name. What is put at the end is exactly what is in a
  knot, a set of structs each of which has a field of an emitted type all of whose definitions are in the set; where
  names are unique these are exactly the structs that lead to a cycle (`KnotIffCycle`, `CyclesAtEnd`).
- On a cycle of callers what is reported of a parameter depends on which parameter is looked up first: a look-up cut
  off by one in progress is memoised as it is (`OrderOfReportsMatters`). Parameters whose arguments lead into no
  cycle are reported as the plain recursion has it, whatever cycles there are elsewhere (`Bindings`; one ranking serves
  exactly what leads into no cycle, `RankedIffAcyclic`).
- The selection lineage "no earlier class is capable" says more than is known: it holds exactly when every earlier
  class gave a verdict.
- The matchers of brackets differ on quotes, since one reads escapes backwards (`ScansDifferOnQuotes`). Each finds the
  match in the text as it sees it, and where both see the same they are inverse; so they are on every text with one
  kind of quote and no backslash (`ScansAreInverseWithOneKind`).
- `(A == 3510) || (A == 9201) && c` is kept as already expanded, though `&&` tears the pair apart; architecture 9201
  then gets what was meant if and only if `c` holds (`TornGateMeansIff`, `TornPairIsKept`). No other shape loses
  anything: a guard keeps its meaning whenever no expanded `==` pair is directly followed by `&&`, whichever operands
  the pairs take in (`RewrittenGuardMeans`).

## Model

| member | source | states |
|---|---|---|
| GuardSoundness.LeavingNeverFallsThrough | src/ascendc_codemap_mcp/engine/clang_walk.py:2225-2233 | a statement that has an exit statement falls through in no run of any world |
| GuardSoundness.ChainThatLeavesEverywhere | src/ascendc_codemap_mcp/engine/clang_walk.py:2331-2338 | when every branch of a chain and its tail leave, no later sibling is ever reached |
| GuardSoundness.NegationsHoldAfter | src/ascendc_codemap_mcp/engine/clang_walk.py:2305-2376 | whenever an `if` chain falls through, every condition recorded for its later siblings is true at that moment |
| GuardSoundness.NestedHoldAfter | src/ascendc_codemap_mcp/engine/clang_walk.py:2264-2302 | so is every nested implication, when a link with guards inside excludes the earlier links |
| GuardSoundness.InsideHoldAfter | src/ascendc_codemap_mcp/engine/clang_walk.py:2253-2261 | so is every negation collected one level inside a branch that falls through |
| GuardSoundness.WalkIsSound | src/ascendc_codemap_mcp/engine/clang_walk.py:1872-1937 | at each event of any run, all guards recorded for its site hold, loops and cut runs included, provided those on the stack hold at the start |
| GuardSoundness.ReliableBodiesAreSound | src/ascendc_codemap_mcp/engine/clang_walk.py:1906-1916 | for a whole body, whatever makes its claims hold: whenever a recorded write or condition is reached, each of its guards is true |
| GuardSoundness.CollectedGuardsAreSound | src/ascendc_codemap_mcp/engine/clang_walk.py:1906-1916 | for a whole body: whenever a recorded write or condition is reached, each of its guards is true |
| GuardSoundness.FirstLinksNeedNoHypothesis | src/ascendc_codemap_mcp/engine/clang_walk.py:2286-2302 | bodies whose inner guards all stand in first links meet the supposition in every world |
| GuardEndings.CanEndIff | src/ascendc_codemap_mcp/engine/clang_walk.py:2225-2233 | a statement can end in a way, judged on its tree, if and only if some run of it ends so, loops included |
| GuardClaims.JustifiedIffClean | src/ascendc_codemap_mcp/engine/clang_walk.py:2305-2376 | what a statement claims for its later siblings holds after every run if and only if no branch that can fall through stands before a claiming link in the part that is claimed |
| GuardClaims.LaterClaimsRefutedIff | src/ascendc_codemap_mcp/engine/clang_walk.py:2286-2302 | a run through the first branch refutes a claim of a later link if and only if there is such a claim and the first branch can fall through |
| GuardClaims.ReliableIffClean | src/ascendc_codemap_mcp/engine/clang_walk.py:1906-1916 | over all worlds, everything soundness rests on holds if and only if each statement with a later sibling is clean |
| GuardClaims.CleanBodiesAreSound | src/ascendc_codemap_mcp/engine/clang_walk.py:1906-1916 | in such a body every recorded guard is true whenever its write or condition is reached, with nothing supposed about the conditions |
| GuardExactness.ExactStmtFalls | src/ascendc_codemap_mcp/engine/clang_walk.py:2305-2376 | sole guard clauses, nested guards and whole leaving chains fall through if and only if what they record for later siblings is true |
| GuardExactness.WalkIsExact | src/ascendc_codemap_mcp/engine/clang_walk.py:1872-1937 | under constant conditions a record's site is reached, given its stack, if and only if its further guards all hold |
| GuardExactness.CollectedGuardsAreExact | src/ascendc_codemap_mcp/engine/clang_walk.py:1906-1916 | a write of an exact body runs if and only if all its recorded guards hold |
| GuardLimits.LaterLinkCounterexample | src/ascendc_codemap_mcp/engine/clang_walk.py:2286-2302 | a concrete body and run where a recorded guard is false at the write it is recorded on |
| GuardLimits.EnoughSamples | src/ascendc_codemap_mcp/engine/clang_walk.py:2050-2072 | a loop-free statement with one sample per decision runs to its end |
| GuardLimits.ExactBodiesAreDecided | src/ascendc_codemap_mcp/engine/clang_walk.py:1906-1916 | with enough samples a write of an exact body runs if and only if all its recorded guards hold; that no run is cut short is proved, not supposed |
| GuardWalker.ElseIfChain | src/ascendc_codemap_mcp/engine/clang_walk.py:2236-2250 | the loop returns exactly the links of the chain and the trailing `else` |
| GuardWalker.ExitsInsideOf | src/ascendc_codemap_mcp/engine/clang_walk.py:2253-2261 | builds the guards one level in that the soundness theorem is about |
| GuardWalker.UnlessEachOf | src/ascendc_codemap_mcp/engine/clang_walk.py:2290-2301 | builds one implication per readable inner guard, in order |
| GuardWalker.ImpliedByNestedGuardsOf | src/ascendc_codemap_mcp/engine/clang_walk.py:2264-2302 | builds, link by link, the implications the soundness theorem is about |
| GuardWalker.NegationsOf | src/ascendc_codemap_mcp/engine/clang_walk.py:2305-2376 | builds the negations the soundness theorem is about, for every shape of chain |
| GuardWalker.Walker.Walk | src/ascendc_codemap_mcp/engine/clang_walk.py:1872-1960 | appends to `writes` and `controls` exactly the records of the tree under the given stack, in walking order; which those are is `EveryPlaceIsRecorded`, `EveryRecordHasPlace` and `RecordsInOrder` |
| GuardWalker.Walker.WalkBlock | src/ascendc_codemap_mcp/engine/clang_walk.py:1906-1916 | the growing `implied` list guards each statement with what all earlier siblings imply |
| GuardWalker.Walker.WalkChoice | src/ascendc_codemap_mcp/engine/clang_walk.py:2050-2104 | both branches are walked under opposite guards, the condition under neither |
| GuardWalker.Walker.WalkLoop | src/ascendc_codemap_mcp/engine/clang_walk.py:2131-2184 | every child of a loop is walked under the loop's own guard, `do ... while (0)` under none; what that records is `EveryPlaceIsRecorded` |
| GuardCoverage.EveryPlaceIsRecorded | src/ascendc_codemap_mcp/engine/clang_walk.py:1872-2184 | every write and every condition, wherever it stands in the tree, loop bodies included, is recorded, under the stack and all guards of the way to it |
| GuardCoverage.EveryRecordHasPlace | src/ascendc_codemap_mcp/engine/clang_walk.py:1872-2184 | every record is that of a place in the tree, and names every `if`, ternary and loop that encloses it |
| GuardCoverage.RecordsInOrder | src/ascendc_codemap_mcp/engine/clang_walk.py:1872-2184 | each write and condition is recorded as often as it stands in the tree, in walking order |
| GuardCoverage.SitesAreRecorded | src/ascendc_codemap_mcp/engine/clang_walk.py:1872-2184 | the recorded sites are exactly those of the tree |
| GuardKinds.ClaimsOfLeaving | src/ascendc_codemap_mcp/engine/clang_walk.py:2305-2376 | for every shape of chain whose first branch leaves: what later siblings are told, and whether as a bail-out, a guard clause or a plain condition |
| GuardKinds.ClaimsOfStaying | src/ascendc_codemap_mcp/engine/clang_walk.py:2305-2330 | a statement that is no `if` claims nothing, and one whose first branch may fall through claims only what stands inside its links |
| GuardKinds.NestedClaimIff | src/ascendc_codemap_mcp/engine/clang_walk.py:2264-2302 | one whose first branch may fall through tells, for each readable link, exactly what is claimed one level inside it |
| CppExpr.ParseTernary | src/ascendc_codemap_mcp/engine/cpp_expr.py:170-178 | on every token list an expression comes back and the cursor ends between where it was and the end |
| CppExpr.ParseBinary | src/ascendc_codemap_mcp/engine/cpp_expr.py:180-191 | the same for the operator loop, at every precedence |
| CppExpr.ParseUnary | src/ascendc_codemap_mcp/engine/cpp_expr.py:193-208 | the same for unary operators and named casts |
| CppExpr.ParsePostfix | src/ascendc_codemap_mcp/engine/cpp_expr.py:242-276 | the same for calls, subscripts and members |
| CppExpr.ParseArgs | src/ascendc_codemap_mcp/engine/cpp_expr.py:278-287 | the same for argument lists, closed or not |
| CppExpr.ParsePrimary | src/ascendc_codemap_mcp/engine/cpp_expr.py:289-333 | the same for literals, names, parentheses and braces |
| CppExpr.Parser.Parse | src/ascendc_codemap_mcp/engine/cpp_expr.py:166-168 | the cursor-moving parser returns the tree and the final position the grammar function gives, from any position; what they are for written text is `TernaryInverts` |
| CppExpr.Parser.Ternary | src/ascendc_codemap_mcp/engine/cpp_expr.py:170-178 | so does its conditional level |
| CppExpr.Parser.Binary | src/ascendc_codemap_mcp/engine/cpp_expr.py:180-191 | so does its operator loop, for every least precedence |
| CppExpr.Parser.Unary | src/ascendc_codemap_mcp/engine/cpp_expr.py:193-208 | so does its unary level |
| CppExpr.Parser.TemplateArgsEnd | src/ascendc_codemap_mcp/engine/cpp_expr.py:210-234 | reports an end only where the skipping function moves on, without moving the cursor |
| CppExpr.Parser.SkipTemplate | src/ascendc_codemap_mcp/engine/cpp_expr.py:236-240 | moves the cursor exactly over a template argument list that a call follows |
| TemplateLists.SkipIff | src/ascendc_codemap_mcp/engine/cpp_expr.py:210-240 | tokens are skipped exactly where angle brackets balance across no mark that stops the scan, with a parenthesis behind, and up to that |
| CppExpr.Parser.Postfix | src/ascendc_codemap_mcp/engine/cpp_expr.py:242-276 | the postfix loop agrees with the grammar function |
| CppExpr.Parser.Member | src/ascendc_codemap_mcp/engine/cpp_expr.py:247-264 | one member access, field or method, is one step of the postfix grammar; what it reads is `PostfixInverts` |
| CppExpr.Parser.Args | src/ascendc_codemap_mcp/engine/cpp_expr.py:278-287 | the argument loop agrees with the grammar function |
| CppExpr.Parser.Primary | src/ascendc_codemap_mcp/engine/cpp_expr.py:289-333 | the primary level agrees with the grammar function |
| CppExprRoundTrip.BinaryInverts | src/ascendc_codemap_mcp/engine/cpp_expr.py:52-71 | an operand that binds tightly enough is read as itself and the operator loop goes on behind it: precedence and left association |
| CppExprRoundTrip.TighterIff | src/ascendc_codemap_mcp/engine/cpp_expr.py:52-71 | one operator binds more tightly than another exactly as they stand in the table of precedences |
| CppExprRoundTrip.PostfixInverts | src/ascendc_codemap_mcp/engine/cpp_expr.py:242-276 | a name, literal, call, field, method call, subscript, C-style cast, list in braces or parenthesis is read as its tree, anywhere in a text |
| CppExprRoundTrip.NamedCastInverts | src/ascendc_codemap_mcp/engine/cpp_expr.py:200-207 | a named cast is its operand, and nothing behind it is taken for a member, call or subscript of it |
| CppExprRoundTrip.NamedCastSkipsList | src/ascendc_codemap_mcp/engine/cpp_expr.py:200-234 | so is one with a template argument list, whatever stands in that |
| CppExprRoundTrip.TernaryInverts | src/ascendc_codemap_mcp/engine/cpp_expr.py:170-178 | a written expression anywhere in a token list is read as its tree when nothing behind it continues it |
| CppExprRoundTrip.ParseInvertsWriting | src/ascendc_codemap_mcp/engine/cpp_expr.py:166-333 | any sufficient parenthesisation of a tree, redundant parentheses, fields, method calls, casts and lists in braces included, parses to the tree and consumes all tokens, when no template argument list stands behind a member name |
| CppExprRoundTrip.PlaceIsWellWritten | src/ascendc_codemap_mcp/engine/cpp_expr.py:52-71 | parentheses placed only where precedence asks for them are sufficient and keep the tree |
| CppExprRoundTrip.RenderIsShortest | src/ascendc_codemap_mcp/engine/cpp_expr.py:52-71 | no way of writing a tree takes fewer tokens than the rendering |
| CppExprRoundTrip.ParseInvertsRender | src/ascendc_codemap_mcp/engine/cpp_expr.py:166-333 | parsing the minimally parenthesised rendering gives back the same tree, when no template argument list stands behind a member name |
| CppExprRoundTrip.RenderIsInjective | src/ascendc_codemap_mcp/engine/cpp_expr.py:166-333 | no two trees are rendered alike, when no template argument list stands behind a member name |
| CppExprErrors.MissingColon | src/ascendc_codemap_mcp/engine/cpp_expr.py:172-177 | a conditional without `:` is unknown, from any position, and the cursor stays where it is missing |
| CppExprErrors.MissingOperand | src/ascendc_codemap_mcp/engine/cpp_expr.py:180-196 | an operator that ends the text has an unknown operand |
| CppExprErrors.DanglingMember | src/ascendc_codemap_mcp/engine/cpp_expr.py:247-251 | a `.` or `->` that ends the text makes all of it unknown |
| CppExprErrors.CastWithoutOperand | src/ascendc_codemap_mcp/engine/cpp_expr.py:200-207 | a named cast without parentheses is unknown |
| CppExprErrors.UnclosedParenthesis | src/ascendc_codemap_mcp/engine/cpp_expr.py:293-296 | a parenthesis that is never closed is read as if it were |
| CppExprErrors.LoneToken | src/ascendc_codemap_mcp/engine/cpp_expr.py:289-333 | what tokens that no expression is written as are read as: bad numbers and stray marks are unknown, `NULL` is null |
| CppExprErrors.MethodSkipsList | src/ascendc_codemap_mcp/engine/cpp_expr.py:247-259 | a template argument list behind a member name is skipped and the call behind it read |
| TemplateArgs.DropTemplateArguments | src/ascendc_codemap_mcp/engine/cpp_expr.py:99-136 | the scan rewrites the token list from left to right, folding a lone number into the callee |
| TemplateArgs.CloseIndex | src/ascendc_codemap_mcp/engine/cpp_expr.py:114-127 | finds the `>` that balances the first `<`, and none across a mark that stops the search |
| TemplateArgs.DropIsIdempotent | src/ascendc_codemap_mcp/engine/cpp_expr.py:99-136 | erasing twice is erasing once: what stays forms no new template call |
| TemplateArgs.KeptIffNothingOpens | src/ascendc_codemap_mcp/engine/cpp_expr.py:99-136 | the tokens stay as they are if and only if no `name<...>(` starts anywhere |
| TemplateArgs.OpensIff | src/ascendc_codemap_mcp/engine/cpp_expr.py:99-136 | a template call starts exactly where a name is followed by angle brackets that balance across no mark that stops the search, and by a parenthesis |
| TemplateArgs.ErasedCall | src/ascendc_codemap_mcp/engine/cpp_expr.py:128-134 | there the arguments go, a single number into the name, and erasing goes on behind the last `>` |
| TemplateArgs.TokenKept | src/ascendc_codemap_mcp/engine/cpp_expr.py:108-113 | everywhere else the token stays and erasing goes on behind it |
| TemplateArgs.ErasedTextHasNoLists | src/ascendc_codemap_mcp/engine/cpp_expr.py:210-240 | behind erasing, the parser finds no template argument list to skip behind any name |
| LessThanCount.ParseMakesNoComparison | src/ascendc_codemap_mcp/engine/cpp_expr.py:166-333 | on every token list the parsed tree holds no more `<` comparisons than the text holds `<` |
| LessThanCount.WrittenCount | src/ascendc_codemap_mcp/engine/cpp_expr.py:166-333 | a written tree holds exactly as many |
| TemplateArgs.TreeSurvivesIff | src/ascendc_codemap_mcp/engine/cpp_expr.py:342-348 | for every writing: erasing and then parsing gives its tree if and only if no template call starts in its text |
| TemplateArgs.ComparisonsReadAsCall | src/ascendc_codemap_mcp/engine/cpp_expr.py:99-136 | two comparisons that look like a template call come back as a call |
| Preprocessor.ScanKeepsInv | src/ascendc_codemap_mcp/engine/kernel_gates.py:390-450 | after any directives, well-formed or not, no frame is both taken and unknown and each `parent_on` is the state below |
| Preprocessor.ItemsCovered | src/ascendc_codemap_mcp/engine/kernel_gates.py:403-450 | well-formed text leaves the stack as it was, and each report covers what the preprocessor does there |
| Preprocessor.ScanIsSound | src/ascendc_codemap_mcp/engine/kernel_gates.py:453-489 | for every truth of the unknown conditions, whatever the preprocessor reaches is reported as taken |
| Preprocessor.ScanIsExact | src/ascendc_codemap_mcp/engine/kernel_gates.py:453-489 | when the conditions met on a live path are known, each report is exactly what the preprocessor does |
| Preprocessor.ScannersAgree | src/ascendc_codemap_mcp/engine/kernel_gates.py:502-538 | the tiling-key scanner collects exactly at the conditions the include scanner reports as taken |
| Preprocessor.EnteredKeysAreCollected | src/ascendc_codemap_mcp/engine/kernel_gates.py:502-538 | a key tested by a condition whose group the preprocessor enters is collected |
| Preprocessor.FrameCell.ApplyElif | src/ascendc_codemap_mcp/engine/kernel_gates.py:416-437 | the in-place update gives the frame the soundness theorem tracks |
| Preprocessor.FrameCell.ApplyElse | src/ascendc_codemap_mcp/engine/kernel_gates.py:440-450 | the same for `#else` |
| Preprocessor.IterDirectives | src/ascendc_codemap_mcp/engine/kernel_gates.py:453-489 | the scan over a stack of mutable frames yields the reports of the frame machine |
| Preprocessor.StackedEqualitiesOf | src/ascendc_codemap_mcp/engine/kernel_gates.py:492-499 | the loop merges the equalities of the frames that are on; what the result says of a name is `PreprocessorGroups.StackedIff` |
| Preprocessor.TilingKeysWithConstraints | src/ascendc_codemap_mcp/engine/kernel_gates.py:502-538 | the second scan yields the keys and constraints of the frame machine; which those are is `PreprocessorGroups.CollectedIff` |
| PreprocessorGroups.TakenIff | src/ascendc_codemap_mcp/engine/kernel_gates.py:403-489 | on any directives, conditions known or not: a directive is reported as taken if and only if in every open section no earlier condition is true and the current one is not false, or an earlier one is unknown, or it is an `#else` |
| PreprocessorGroups.StackedIff | src/ascendc_codemap_mcp/engine/kernel_gates.py:492-499 | when all frames are on, a name has a value if and only if the innermost open group that records the name records it last with that value |
| PreprocessorGroups.CollectedIff | src/ascendc_codemap_mcp/engine/kernel_gates.py:502-538 | on any directives: a key is collected with some constraints if and only if a condition that may be entered tests it, and a name has a value in the constraints exactly when the innermost group around that records the name records it last with that value |
| IsCapable.LazyIsEager | src/ascendc_codemap_mcp/engine/registry_capable.py:397-421 | re-evaluating initialisers at each use gives what evaluating each once and carrying its failure gives |
| IsCapable.ExecAgrees | src/ascendc_codemap_mcp/engine/registry_capable.py:423-437 | both evaluations end alike and keep bindings in agreement, for bodies that declare no name after an initialiser mentioned it |
| IsCapable.LazyVerdictIsEager | src/ascendc_codemap_mcp/engine/registry_capable.py:423-448 | the verdict is that of evaluating each declaration in its place, redeclarations of unmentioned names included, and the look-ups end |
| IsCapable.RedeclarationAgrees | src/ascendc_codemap_mcp/engine/registry_capable.py:423-437 | a name declared twice and then returned, unmentioned by its initialisers, gets the ordinary verdict |
| IsCapable.CapablePred.Run | src/ascendc_codemap_mcp/engine/registry_capable.py:423-437 | the binding-updating loop returns the verdict and bindings of the specification |
| IsCapable.CapablePred.EvaluateEnv | src/ascendc_codemap_mcp/engine/registry_capable.py:439-448 | the answer is true, false, unresolved or an exception if and only if the run, statement by statement, returns something true, returns something false or ends, asks for something unbound, or raises: for every body by the run that evaluates at each use, and by the ordinary run for bodies that declare no name after an initialiser mentioned it |
| IsCapable.AnswerByDeclaration | src/ascendc_codemap_mcp/engine/registry_capable.py:439-448 | the four answers, each if and only if the ordinary run comes to such a place |
| IsCapable.AnswerByUse | src/ascendc_codemap_mcp/engine/registry_capable.py:439-448 | the same for every body, by the run that evaluates initialisers at each use |
| IsCapable.StopsOnce | src/ascendc_codemap_mcp/engine/registry_capable.py:423-437 | a run stops in one place only |
| IsCapable.Connectives | src/ascendc_codemap_mcp/engine/cpp_expr.py:390-398 | `&&` and `||` have a value, and count as true, as their operands say, the left one alone where it decides |
| IsCapable.NamesMean | src/ascendc_codemap_mcp/engine/cpp_expr.py:367-377 | a name has the value the environment gives it, declared or not, and else what was declared |
| IsCapable.RedeclarationDiffers | src/ascendc_codemap_mcp/engine/registry_capable.py:423-428 | declaring a name again after an initialiser mentioned it changes what that initialiser meant |
| IsCapable.SelfReferenceNeverEnds | src/ascendc_codemap_mcp/engine/registry_capable.py:397-402 | an initialiser that names itself exceeds every depth |
| IsCapable.RankedBodyEnds | src/ascendc_codemap_mcp/engine/registry_capable.py:423-437 | a body's look-ups end, redeclarations included, when each declaration mentions only names of lower rank |
| IsCapable.Choose | src/ascendc_codemap_mcp/engine/registry_capable.py:552-559 | chooses the first class with a predicate that answers true |
| IsCapable.ChosenIff | src/ascendc_codemap_mcp/engine/registry_capable.py:552-559 | a class is chosen if and only if its predicate answers true and each before it has none, or one that is false or unresolved |
| IsCapable.NoneChosenIff | src/ascendc_codemap_mcp/engine/registry_capable.py:552-559 | no class is chosen if and only if all are passed over; an exception ends the search if and only if some predicate raises one and all before it are passed over |
| IsCapable.LineageHoldsIff | src/ascendc_codemap_mcp/engine/registry_capable.py:581-589 | the lineage is true of the chosen class if and only if every earlier class has a verdict |
| PipeOrder.TopoPipeOrdinals | src/ascendc_codemap_mcp/engine/pipe_lifetime.py:67-113 | a bijection onto 1..n that respects every edge into a name no cycle leads to; with or without cycles, those names come first, in the least topological order of theirs by line and name, and the others follow in the order in which they are first listed |
| PipeOrder.RankIsOrdered | src/ascendc_codemap_mcp/engine/pipe_lifetime.py:97-113 | what comes first and in which order, cycles or not: the names no cycle leads to, least topological order, then the others as listed |
| PipeOrder.WithoutLine | src/ascendc_codemap_mcp/engine/pipe_lifetime.py:94-95 | a name without a line is ordered as one on line 0 |
| PipeOrder.Kahn | src/ascendc_codemap_mcp/engine/pipe_lifetime.py:97-112 | the queue takes the least ready name each time until none is ready, then appends the rest in their order |
| PipeOrder.KahnIsLeast | src/ascendc_codemap_mcp/engine/pipe_lifetime.py:97-109 | no topological order of an acyclic graph comes before the greedy one |
| PipeOrder.KahnRespectsEdges | src/ascendc_codemap_mcp/engine/pipe_lifetime.py:97-113 | an edge into a name no cycle leads to is respected, cycles elsewhere notwithstanding |
| PipeOrder.LeftoversAreBehindCycles | src/ascendc_codemap_mcp/engine/pipe_lifetime.py:110-112 | a name never becomes ready if and only if a cycle leads to it |
| PipeOrder.KahnIsPermutation | src/ascendc_codemap_mcp/engine/pipe_lifetime.py:97-113 | every name is ranked once |
| PipeOrder.BuildGraph | src/ascendc_codemap_mcp/engine/pipe_lifetime.py:85-92 | successors and counts describe the distinct edges between listed names, loops dropped |
| CodemapPath.ShortestPath | src/ascendc_codemap_mcp/engine/host_codemap.py:762-790 | a returned chain is a path no path is shorter than, and fewer ids than the bound lie nearer than its end; none is returned only if at least as many as the bound lie as near as the goal, or the goal is unreachable |
| CodemapPath.Expand | src/ascendc_codemap_mcp/engine/host_codemap.py:768-774 | taking one node keeps the breadth-first invariant: distances are real, minimal and in queue order |
| CodemapPath.Chain | src/ascendc_codemap_mcp/engine/host_codemap.py:777-782 | following `prev` back gives a path as long as the distance |
| CodemapPath.FoundIsShortest | src/ascendc_codemap_mcp/engine/host_codemap.py:762-774 | once the goal is at the head of the queue or found, no path is shorter than its distance |
| CodemapPath.FinishedFindsAll | src/ascendc_codemap_mcp/engine/host_codemap.py:762-774 | when the queue runs empty everything reachable has been found |
| IncludeClosure.CollectSourceStamps | src/ascendc_codemap_mcp/engine/extract_cache.py:62-120 | one row per path: missing, reused or hashed |
| IncludeClosure.StampChangedPaths | src/ascendc_codemap_mcp/engine/extract_cache.py:146-164 | lists exactly the paths whose presence or sha drifted |
| QuotedIncludes.ResolveQuotedInclude | src/ascendc_codemap_mcp/engine/extract_cache.py:179-198 | the loop returns the path next to the file, else the path as given, else the least confirmed path that matches |
| QuotedIncludes.ResolveIff | src/ascendc_codemap_mcp/engine/extract_cache.py:179-198 | the path chosen is the one that comes before every other confirmed path that may be meant: next to the file before as given, that before the rest, the rest by name; and none exactly if no confirmed path may be meant |
| QuotedIncludes.ResolveKeeps | src/ascendc_codemap_mcp/engine/extract_cache.py:179-198 | with its target still confirmed an include resolves as before, or to a path that was not confirmed before |
| QuotedIncludes.IncludesIff | src/ascendc_codemap_mcp/engine/extract_cache.py:201-215 | the graph has an edge exactly where a quoted include of a confirmed file resolves to its end |
| QuotedIncludes.CollectIncludeGraph | src/ascendc_codemap_mcp/engine/extract_cache.py:201-215 | the loop over the confirmed files builds that graph, each target once at its first place |
| IncludeClosure.IncludeReverseClosure | src/ascendc_codemap_mcp/engine/extract_cache.py:218-238 | returns exactly the files from which some include path leads to a changed file |
| IncludeClosure.UnchangedSources | src/ascendc_codemap_mcp/engine/extract_cache.py:374-416 | returns the confirmed sources in their order without those a chain of includes leads from to a drifted file, and exactly the latter as changed; without a previous fingerprint everything is cold |
| IncludeClosure.KeptIffNothingDriftedBelow | src/ascendc_codemap_mcp/engine/extract_cache.py:374-416 | safe and tight: a confirmed source is kept if and only if no include path from it ends in a file whose presence or sha drifted |
| IncludeClosure.DriftedIff | src/ascendc_codemap_mcp/engine/extract_cache.py:62-164 | with the previous rows true of an earlier disk, a path drifts if and only if the file changed and did not keep its time and size |
| IncludeClosure.RunStaysTrue | src/ascendc_codemap_mcp/engine/extract_cache.py:62-120 | over any number of extractions, whatever is added, removed or rewritten: every row of every extraction tells what lay on disk, as long as no file is rewritten behind its time and size from one to the next |
| IncludeClosure.TrueIsCold | src/ascendc_codemap_mcp/engine/extract_cache.py:62-120 | so each extraction of such a run is as good as one that knew nothing before, and what holds of two extractions holds of any two in turn |
| IncludeClosure.EdgePersists | src/ascendc_codemap_mcp/engine/extract_cache.py:179-198 | an include in an unchanged file goes where it went, if that file is still confirmed, or else to a newly confirmed one |
| IncludeClosure.OldPathLeads | src/ascendc_codemap_mcp/engine/extract_cache.py:374-416 | a source that led to a changed file in the previous graph leads to a drifted one now, or something was overlooked |
| IncludeClosure.RightIff | src/ascendc_codemap_mcp/engine/extract_cache.py:374-416 | a confirmed source is right to keep if and only if it leads to no drifted file now and nothing was overlooked for it |
| IncludeClosure.KeptWronglyIff | src/ascendc_codemap_mcp/engine/extract_cache.py:374-416 | a kept source is wrong to keep if and only if it led to a removed file, or leads or led to a file rewritten behind its time and size |
| IncludeClosure.ReuseIsRightIff | src/ascendc_codemap_mcp/engine/extract_cache.py:374-416 | the kept sources are exactly those that lead to a changed file neither in the previous include graph nor in the current one, if and only if no kept one led to a removed file or leads in either graph to one rewritten behind its time and size |
| IncludeClosure.KeptIffContentsKept | src/ascendc_codemap_mcp/engine/extract_cache.py:374-416 | when all files confirmed before still are and none was rewritten behind its time and size, a source is kept if and only if it is confirmed and leads in neither graph to a file whose contents or presence changed |
| IncludeClosure.RewrittenSourceIsKept | src/ascendc_codemap_mcp/engine/extract_cache.py:90-119 | a concrete source that changed on disk and is kept |
| IncludeClosure.RemovedHeaderIsForgotten | src/ascendc_codemap_mcp/engine/extract_cache.py:179-215 | whatever the two files hold, a source that included a header is kept, wrongly, when the header is confirmed no more |
| IncludeClosure.RemovedHeaderInput | src/ascendc_codemap_mcp/engine/extract_cache.py:402-407 | a concrete such input, with both extractions and nothing rewritten |
| IncludeClosure.NothingDrifted | src/ascendc_codemap_mcp/engine/extract_cache.py:390-393 | equal fingerprints leave no drifted file, so keeping everything is right |
| StructEmit.Choose | src/ascendc_codemap_mcp/engine/kernel_tiling_view.py:189-213 | the chosen names are the least set with the undefined structs that is closed under the field types of the struct a name stands for, the last of that name |
| StructEmit.Pass | src/ascendc_codemap_mcp/engine/kernel_tiling_view.py:214-233 | a pass places only structs whose dependencies are placed, loses none, and makes progress or leaves only stuck ones |
| StructEmit.StructsToEmit | src/ascendc_codemap_mcp/engine/kernel_tiling_view.py:189-233 | every struct of the chosen names is listed as often as it is given; first those in no knot, each behind the emitted structs its fields name, then the others, also when names repeat |
| StructFields.EmittedIffWanted | src/ascendc_codemap_mcp/engine/kernel_tiling_view.py:189-213 | a name is emitted if and only if a chain of field types leads to it from a struct the kernel does not define, following each time the last struct of a name |
| StructFields.FieldsComeFirst | src/ascendc_codemap_mcp/engine/kernel_tiling_view.py:214-233 | up to some place every struct stands behind a struct of each listed type its fields have |
| StructFields.LastIffBlocked | src/ascendc_codemap_mcp/engine/kernel_tiling_view.py:226-233 | from there on stand exactly the structs that are among such as each need a listed type all of whose structs are among them |
| StructFields.ListedAsGiven | src/ascendc_codemap_mcp/engine/kernel_tiling_view.py:213-214 | a struct is listed as often as it is given, if its name is listed |
| StructEmit.KnotsAtEnd | src/ascendc_codemap_mcp/engine/kernel_tiling_view.py:226-233 | when nothing can be placed any more, exactly what is left is in knots |
| StructEmit.KnotIffCycle | src/ascendc_codemap_mcp/engine/kernel_tiling_view.py:226-233 | where names are unique, being in a knot is leading to a cycle |
| StructEmit.ListedOnce | src/ascendc_codemap_mcp/engine/kernel_tiling_view.py:189-233 | where names are unique each chosen struct is listed once |
| StructEmit.CyclesAtEnd | src/ascendc_codemap_mcp/engine/kernel_tiling_view.py:226-233 | where names are unique, what is put at the end is exactly what a chain of field types leads from to a cycle |
| StructEmit.KnotsLeadToCycles | src/ascendc_codemap_mcp/engine/kernel_tiling_view.py:226-233 | structs each of which names another of them lead to a cycle of field types |
| StructEmit.CyclesAreKnots | src/ascendc_codemap_mcp/engine/kernel_tiling_view.py:226-233 | and the names of a chain into a cycle are such structs |
| ParamBindings.Bindings | src/ascendc_codemap_mcp/engine/host_ir.py:787-802 | ends on every call graph; each reported text is justified by a chain of callers, and every parameter whose arguments are ranked gets the plain recursion's result, whatever cycles there are elsewhere; what that is, told from the tables, is `ParamLinks.ParameterReportedIff` |
| ParamRanks.RankedIffAcyclic | src/ascendc_codemap_mcp/engine/host_ir.py:744-785 | one ranking serves all look-ups that lead into no cycle of callers, and no ranking serves another one |
| ParamBindings.Expander.Expand | src/ascendc_codemap_mcp/engine/host_ir.py:744-755 | returns what the look-up function gives and leaves its memo; grows by finished entries only, and ends since unmemoised triples run out; what is reported, told from the tables, is `ParamLinks.ReportedIff` |
| ParamLinks.NextIff | src/ascendc_codemap_mcp/engine/host_ir.py:756-784 | a triple leads to exactly the texts its callers have for it: the definition of a local, and what the caller is itself passed for a parameter of that name |
| ParamLinks.DefinitionFirst | src/ascendc_codemap_mcp/engine/host_ir.py:763-769 | what a caller defines comes before what it is passed, and that in the order of the table |
| ParamLinks.CallersInOrder | src/ascendc_codemap_mcp/engine/host_ir.py:763-784 | what earlier callers have comes before what later ones have |
| ParamLinks.ReportedIff | src/ascendc_codemap_mcp/engine/host_ir.py:756-785 | a text is reported if and only if some caller's text reports it; what is looked up, other than the formal, stands for itself if and only if no caller's text reports anything |
| ParamLinks.ExpressionsStand | src/ascendc_codemap_mcp/engine/host_ir.py:756-776 | text that is no identifier stands for itself |
| ParamLinks.DerivedIff | src/ascendc_codemap_mcp/engine/host_ir.py:756-785 | the same for what chains of callers derive, with cycles |
| ParamLinks.ParameterReportedIff | src/ascendc_codemap_mcp/engine/host_ir.py:787-802 | a parameter is reported as exactly what its arguments report, its own name left out; if that is nothing, as its arguments |
| ParamLinks.NormStrips | src/ascendc_codemap_mcp/engine/host_ir.py:745-747 | a text is looked up without its leading ampersands and the spaces around what is left |
| ParamBindings.Expander.Compute | src/ascendc_codemap_mcp/engine/host_ir.py:756-785 | the entry in progress is finished with derivations only |
| ParamBindings.Expander.ExpandAll | src/ascendc_codemap_mcp/engine/host_ir.py:762-784 | the results of the callers are strung together in order |
| ParamBindings.ReadSites | src/ascendc_codemap_mcp/engine/host_ir.py:717-740 | the tables hold exactly the arguments passed for each parameter, tuples rewritten for their caller, and the callers of every function with parameters, each once and in the order of the sites |
| ParamBindings.DistinctInOrder | src/ascendc_codemap_mcp/engine/host_ir.py:737-739 | of repeated texts each stands once, in the order of their first places |
| ParamBindings.BindSlots | src/ascendc_codemap_mcp/engine/host_ir.py:788-800 | every parameter with arguments gets a justified entry |
| ParamBindings.Bind | src/ascendc_codemap_mcp/engine/host_ir.py:790-800 | one parameter: the settled result of its look-ups and the memo they leave; expansions without the parameter's own name, or the arguments when nothing else is left; the plain recursion's when its arguments are ranked |
| ParamBindings.OrderOfReportsMatters | src/ascendc_codemap_mcp/engine/host_ir.py:748-755 | a concrete call graph with a cycle on which a parameter is reported as a definition or as its own name, depending on what is reported first |
| ParamBindings.ReportsDiffer | src/ascendc_codemap_mcp/engine/host_ir.py:748-785 | the same for every two parameters that pass themselves to each other and one of which has a caller with a definition |
| ParamBindings.UniverseClosed | src/ascendc_codemap_mcp/engine/host_ir.py:744-785 | the triples an expansion can reach are finitely many |
| ParamBindings.DerivedIsFound | src/ascendc_codemap_mcp/engine/host_ir.py:756-785 | whatever a chain of callers derives is an argument or a local definition found in the program |
| ParamBindings.JustifiedIsFound | src/ascendc_codemap_mcp/engine/host_ir.py:787-802 | so is every reported text |
| TilingKey.EncodeKey | src/ascendc_codemap_mcp/engine/canonical_tpl_projection.py:96-108 | the shift-and-or loop packs the encodings as digits, and fails exactly on the first bad field or above 64 bits |
| TilingKey.PackedFits | src/ascendc_codemap_mcp/engine/canonical_tpl_projection.py:96-108 | packed fields stay below two to the sum of their widths |
| TilingKey.KeyFits | src/ascendc_codemap_mcp/engine/canonical_tpl_projection.py:96-108 | every key that is returned fits 64 bits |
| TilingKey.AndMask | src/ascendc_codemap_mcp/engine/canonical_tpl_projection.py:104 | masking is the remainder, for negative encodings too |
| TilingKey.OrAbove | src/ascendc_codemap_mcp/engine/canonical_tpl_projection.py:104 | or-ing a shifted field above a smaller key adds it |
| TilingKey.FieldIsRecovered | src/ascendc_codemap_mcp/engine/canonical_tpl_projection.py:96-108 | shifting and masking a key gives each field's encoding modulo its width |
| TilingKey.FieldOfInstance | src/ascendc_codemap_mcp/engine/canonical_tpl_projection.py:83-108 | every field of a returned key is the number the instance's text, or the default, denotes: the first place in the domain, the truth of a flag, or the number itself, cut to its width |
| TilingKey.FlagBit | src/ascendc_codemap_mcp/engine/canonical_tpl_projection.py:91-92 | the bit of a flag is set if and only if its text is one of the three that mean true |
| TilingKey.KeyFailsIff | src/ascendc_codemap_mcp/engine/canonical_tpl_projection.py:83-108 | no key is returned if and only if some text denotes no number, and the first such is named, or the fields are wider than 64 bits together |
| TilingKey.KeysAgreeIff | src/ascendc_codemap_mcp/engine/canonical_tpl_projection.py:96-108 | two keys are equal if and only if all fields agree modulo their widths |
| TilingKey.SameKeySameValue | src/ascendc_codemap_mcp/engine/canonical_tpl_projection.py:83-108 | equal keys mean equal values in every enumerated field whose domain fits its width |
| TilingKey.FieldCollidesIff | src/ascendc_codemap_mcp/engine/canonical_tpl_projection.py:83-93 | an enumerated field confuses two values if and only if its domain is larger than its width allows |
| CppLex.MaskNonCode | src/ascendc_codemap_mcp/engine/cpp_lex.py:127-186 | overwriting the buffer under a state gives the mask of the text |
| CppLex.MaskKeeps | src/ascendc_codemap_mcp/engine/cpp_lex.py:127-186 | length and newlines stay, and every character is kept or blank |
| CppPieces.PiecesMasked | src/ascendc_codemap_mcp/engine/cpp_lex.py:127-186 | however a text is made of comments, literals and other characters, closed or not: the former become blanks, newlines in them apart, and every other character stays |
| CppPieces.EveryTextHasPieces | src/ascendc_codemap_mcp/engine/cpp_lex.py:127-186 | every text is made of such pieces |
| CppLex.MaskIsIdempotent | src/ascendc_codemap_mcp/engine/cpp_lex.py:127-186 | masking twice is masking once, and text is left alone if and only if nothing in it opens a comment or literal |
| CppLex.LineIndex | src/ascendc_codemap_mcp/engine/cpp_lex.py:50-64 | lists exactly the newline positions in order |
| CppLex.BisectRight | src/ascendc_codemap_mcp/engine/cpp_lex.py:67-68 | splits a sorted list at the first element above the offset |
| CppLex.LineAt | src/ascendc_codemap_mcp/engine/cpp_lex.py:67-68 | the line is one more than the newlines up to and including the offset, for any offset |
| CppLex.MaskKeepsLines | src/ascendc_codemap_mcp/engine/cpp_lex.py:127-186 | line numbers over masked text are those of the original |
| CppLex.MatchingParenForward | src/ascendc_codemap_mcp/engine/kernel_tiling_view.py:361-383 | the quote-skipping scan gives the position its specification gives, or -1 |
| CppLex.MatchingBrace | src/ascendc_codemap_mcp/engine/cpp_lex.py:189-213 | the same for braces, and -1 unless it starts on one |
| CppLex.MatchingParenBackward | src/ascendc_codemap_mcp/engine/cpp_lex.py:216-245 | the same backwards, with the escape test of the source |
| CppLex.ForwardIsMatch | src/ascendc_codemap_mcp/engine/kernel_tiling_view.py:361-383 | without quotes the forward scan stops exactly at the first zero of the nesting balance |
| CppLex.BackwardIsMatch | src/ascendc_codemap_mcp/engine/cpp_lex.py:216-245 | without quotes the backward scan stops exactly at the bracket whose match it started from |
| CppLex.ScansAreInverse | src/ascendc_codemap_mcp/engine/cpp_lex.py:216-245 | without quotes the two scans are inverse to each other, in both directions |
| CppLex.ScansAreInverseOnMasked | src/ascendc_codemap_mcp/engine/cpp_lex.py:216-245 | so they are on every masked text |
| CppLex.ScansDifferOnQuotes | src/ascendc_codemap_mcp/engine/cpp_lex.py:216-245 | with quotes they need not be: a concrete text |
| QuotedBrackets.ForwardFindsMatch | src/ascendc_codemap_mcp/engine/kernel_tiling_view.py:361-383 | on every text the forward scan reports exactly the match in the text as it sees it, quotes and escapes blanked |
| QuotedBrackets.BackwardFindsMatch | src/ascendc_codemap_mcp/engine/cpp_lex.py:216-245 | so does the backward scan, in the text as it sees it |
| QuotedPieces.ForwardSeesOutside | src/ascendc_codemap_mcp/engine/kernel_tiling_view.py:361-383 | what the forward scan sees is exactly the characters outside literals, however quotes are escaped in them |
| QuotedPieces.BackwardSeesOutside | src/ascendc_codemap_mcp/engine/cpp_lex.py:216-245 | what the backward scan sees are those of the text read backwards, where a backslash escapes what stands in front of it |
| QuotedBrackets.ScansAgreeWhereSeenAlike | src/ascendc_codemap_mcp/engine/cpp_lex.py:216-245 | where both see the same between two brackets, each scan finds the other's start or neither does |
| QuotedBrackets.ScansAreInverseWithOneKind | src/ascendc_codemap_mcp/engine/cpp_lex.py:216-245 | on texts with one kind of quote and no backslash the scans are inverse, however the quotes stand |
| ArchGates.ExpandGates | src/ascendc_codemap_mcp/engine/cann_9201_compat.py:65-79 | holding, replacing and restoring, pass by pass, amounts to one rewriting from left to right |
| ArchGates.PassesRewrite | src/ascendc_codemap_mcp/engine/cann_9201_compat.py:65-79 | for any patterns of which none occurs in what another pass looks for or leaves, the passes in turn are one rewriting from left to right |
| ArchGates.PassesAreOne | src/ascendc_codemap_mcp/engine/cann_9201_compat.py:65-79 | the patterns of the source are such patterns, so no pass disturbs what another one held or wrote |
| ArchGateText.ExpandIsIdempotent | src/ascendc_codemap_mcp/engine/cann_9201_compat.py:65-66 | rewriting twice is rewriting once, on every text |
| ArchGateMeaning.RewrittenGuardMeans | src/ascendc_codemap_mcp/engine/cann_9201_compat.py:65-79 | the rewritten text of any guard with no template argument list behind a member name parses to the end and means for every architecture but 9201 what the guard meant; for 9201 it means the guard with 9201 passing for 3510 as well, if no expanded `==` pair is directly followed by `&&` |
| ArchGateGuards.GuardExpands | src/ascendc_codemap_mcp/engine/cann_9201_compat.py:65-79 | on every guard, rewriting the text writes the guard with its tests replaced but for those that start an expanded pair, whichever operands that takes in |
| ArchGateMeaning.RewrittenGuardParses | src/ascendc_codemap_mcp/engine/cann_9201_compat.py:65-79 | the rewritten text of every guard with no template argument list behind a member name, whatever members and casts are in it, parses to exactly that guard |
| ArchGateMeaning.RewritingAddsNoList | src/ascendc_codemap_mcp/engine/cann_9201_compat.py:65-79 | rewriting a guard puts no template argument list behind a member name |
| ArchGateMeaning.KeptUnlessStraddled | src/ascendc_codemap_mcp/engine/cann_9201_compat.py:65-79 | an operand keeps its meaning for 9201 unless an expanded pair starts in its last test and ends behind it |
| ArchGateMeaning.RewritingTearsNothing | src/ascendc_codemap_mcp/engine/cann_9201_compat.py:65-79 | on every text: after rewriting an expanded `==` pair is followed by `&&` if and only if one was before |
| ArchGateMeaning.RewrittenIsGuard | src/ascendc_codemap_mcp/engine/cann_9201_compat.py:65-79 | what the rewriting leaves of a guard is a guard again |
| ArchGateMeaning.GatesTakeTheBranch | src/ascendc_codemap_mcp/engine/cann_9201_compat.py:65-66 | without the number 9201 in the guard, architecture 9201 gets the value 3510 had and every other keeps its own |
| ArchGateMeaning.SingleTestMoves | src/ascendc_codemap_mcp/engine/cann_9201_compat.py:65-66 | a single test takes the branch of 3510 if and only if it does not test 9201 |
| ArchGateMeaning.TornGateMeansIff | src/ascendc_codemap_mcp/engine/cann_9201_compat.py:30-35 | a pair with `&& c` behind it is kept, and 9201 gets what was meant if and only if `c` holds |
| ArchGateMeaning.TornGateAlwaysMeansIff | src/ascendc_codemap_mcp/engine/cann_9201_compat.py:30-35 | it does for every reading of what does not name the architecture if and only if `c` always holds |
| ArchGateMeaning.TornPairIsKept | src/ascendc_codemap_mcp/engine/cann_9201_compat.py:30-35 | a guard kept as already expanded on which 3510 and 9201 differ |

## Left out

- GuardSoundness.CollectedGuardsAreSound: supposes that a link with guards inside is never true together with an earlier link of its chain, since the code claims more than holds otherwise; see `GuardLimits`; `GuardClaims.CleanBodiesAreSound` supposes nothing and covers exactly the bodies for which nothing need be supposed.
- GuardWalker.Walker.Walk: function definitions, at which the stack starts afresh, calls, declarations, writes into containers and the limits of scope are not in the tree; a write is recorded whatever it writes to.
- ArchGates.ExpandGates: works on tokens, so that an expanded pair with blanks inside its parentheses is held, where the patterns of the source do not match it and rewrite the test in it.
- GuardExactness.CollectedGuardsAreExact: supposes conditions that keep one value through the run and no loops, since a loop guard claims nothing and a later evaluation may differ.
- ParamBindings.Bindings: equality with the plain recursion is stated for parameters whose arguments are ranked; on a cycle the code cuts off what is in progress, and there is no plain recursion to compare with.
- Preprocessor.ScanIsSound: an over-approximation by design; behind an unknown condition, groups whose conditions are known to be false are scanned as well.
- CppExprRoundTrip.ParseInvertsWriting: supposes that no template argument list stands behind a member name, since the parser skips it; text from which template arguments were erased has none (`ErasedTextHasNoLists`), and `TreeSurvivesIff` supposes nothing. Negative constants are not written, as the parser makes none.
- ArchGateMeaning.GatesTakeTheBranch: supposes the same of the guard, as do the other results on what a rewritten guard is parsed to; rewriting adds no such list (`RewritingAddsNoList`).
- CppExprErrors.MissingOperand: supposes the same of the text, as do the others beside it that are about written parts.
- CppExprRoundTrip.RenderIsInjective: supposes the same, for it is by parsing back that two renderings are told apart.
- `switch` and `case`, `goto` and labels, `try` and `catch`, lambdas and init-statements in the statement trees: the walker makes no usable claim across them.
- Loop guards (`for(...)`, `while(...)`, `do(...)`) claim nothing and are read as true; a `for` without a condition is read as one with a condition that may take any value.
- The operands of `&&`, `||` and `,` inside a condition are visited in order without short-circuiting.
- libclang cursors, extents, tokenization and the three regular expressions on guard text: nodes carry booleans instead; guard text is identified by its site.
- Characters to tokens: numbers are given with the value they denote, and the text of a number is immaterial.
- `try_eval_pp` and the regular expressions on directives: a condition is given as true, false or unknown, with the keys and equalities found in it.
- What the evaluator's operators and call hooks compute is left open, so the results hold for all of them; Python's recursion limit is the fuel.
- `lifetime_edges`, `order_pipe_names` and the trimming of names: edges and trimmed names are given.
- Resolving tokens to entities in `path`, and `influence`.
- Hashing, reading and writing fingerprints: a sha stands for the bytes, fingerprints for their contents; the order of sorted lists of paths is not modelled, nor the fallback to the previous include graph, which the collected one, never empty, forestalls.
- Joining and naming paths, and finding the quoted includes in a file's bytes, are parameters; confirmed paths are given with `/`.
- What `_expand_tuple_actual` makes of a text is a parameter; SSA numbering and the order of dictionaries in `HostIR`; the stack of joined keys is a set of triples.
- The enumeration of rows in tiling views, and negative bit widths.
- `iter_function_defs`, `containing_function`, `_split_args` and other text scanners that add only easy members.
- Placeholder numbers in the gate rewriting, and numbers or names that merely begin or end like the pattern.
- The MCP adapter, installers, toolchain discovery, caches on disk, process pools and session handling.
