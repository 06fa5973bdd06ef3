# Kconfig engine, image hashes and header checksums: a verified model

A Dafny model of the C and Python code that configures and signs an OpenWrt build:

- the **Kconfig engine** under `scripts/config`: the optimiser for three-valued dependency
  expressions, the finalisation of the menu tree, the memoising symbol evaluator with selects and
  choices, the search for recursive dependencies, the reader and writer of `.config` files, and
  the macro expander;
- the **streaming hashes** of `scripts/mkhash.c`: SHA-256 and MD5;
- the **header checksums** of `scripts/cameo-tag.py` and the table-driven CRC of
  `scripts/cfe-partition-tag.py`.

Code that changes things in place is modelled by methods that do: expression slots written through
two aliasing paths of one tree, menu links and conditions reassigned in maps, symbol flags and
values, hash buffers and state arrays, a NUL-terminated line edited while it is parsed. Each such
method is proved against a specification function, and the theorems are about those functions.

`dafny verify dfyconfig.toml` checks everything.

## What is established

- **Simplification keeps meaning.** Duplicate elimination, normalisation, cancellation and folding
  keep the value of every expression in every well-typed environment, and the fixpoint loop ends
  because every pass that counts a join makes the folded expression smaller. The result is
  *reduced*: no two operands of any level can be joined any more, and no operand of any level is
  repeated, not even in another order or grouping.
- **Comparisons.** Symbols that show numbers are related as numbers, texts as texts, bool and
  tristate symbols as levels.
- **The menu tree.** Finalisation keeps the source order of all nodes, loses and duplicates none,
  finalises each exactly once, leaves coherent links, leaves no promptless node below the root with
  children, and gives every node the conjunction of its parent's condition and its own. The
  resulting tree is exactly the one the submenu test determines from these conditions: the parent
  of each node can be told from the parsed lists with a stack of open symbols, and no other tree
  has these parents.
- **One configuration.** On dependencies without a cycle there is exactly one assignment of values
  that satisfies all rules; the memoising evaluator answers from it, whatever is asked and in
  whatever order. In it the first default whose condition holds decides, imply and select raise it
  within their limits, a choice set to y has exactly one member set, picked by rank, and a change is
  accepted and takes effect under exact conditions.
- **Recursive dependencies.** Without choices the search reports an error if and only if there is
  a cycle. With choices the exact class that always passes is characterised.
- **Round trips.** A tree written to a file and read back gives the writable symbols their values
  and touches nothing else. Each symbol is written at most once, in the order of the tree.
- **Macros.** Expansion always ends with a text or an error, restores its depth counters, and a
  successful result never depends on them. A call puts its arguments into the text of the variable.
- **Hashes.** However a message is cut into pieces, the digest is that of FIPS 180-4 or RFC 1321.
- **Checksums.** The header satisfies both of its circular checks, for every header.

## Where the code does not keep its promise

- `a = 'b' && a != 'c'` is shortened to `a = 'b'` (expr.c:540-553). For a tristate symbol this is
  wrong exactly if the two constants spell one value, as `y` and `2` do: `JoinExclusionExact`,
  `JoinExclusionFails`. *Canonical* expressions are those without a numeric spelling of n, m or y
  compared with a tristate symbol.
- The comment above `expr_eq` (expr.c:246-251) says it is enough that every operand has an equal
  one on the other side, in any order, recursively. Without operands y or n the code compares
  multisets at every depth: `PermutationExact`, `RepetitionMatters`. With such operands below the
  top level it is neither transitive nor independent of the order: `OrderMatters`.
- The comment at expr.c:569 announces `a = m` where the code (and its meaning) gives `a = y`.
- `expr_trans_bool` is not harmless below a negation (`TransBoolNeedsNormal`), and
  `expr_trans_compare` is wrong for a negated symbol exactly when that is m
  (`TransCompareNegatedSymbol`).
- Whether a recursion through a choice is reported depends on which symbol is checked first
  (`ChoiceOrderMatters`), and two choices whose members depend on each other's choice are never
  reported although their values depend on each other (`MutualChoicesPass`).
- An accepted change does not take effect when a select forces the symbol against its own
  dependencies (`SetTakesEffect`, `AcceptedChangeLost`). This arises only for a symbol defined
  both with and without a condition: the unconditional definition leaves no trace in the direct
  dependency (expr.c:59-64, menu.c:483); otherwise every accepted change takes effect
  (`UniformTakesEffect`).
- A symbol compared with the constants n, m and y by `<` or `>` is compared by letters, so that
  `m < n` holds (`LettersCompared`).
- A condition that is no conjunction does not include itself in the submenu test
  (`UsedUpExact`, `SupersetExact`).
- A choice the user has set to y is marked as not set when a visible member has no user value. If
  nothing selects the choice, the next calculation turns it off (`LostMark`).
- A menu titled `CONFIG_X is not set` switches X off when the file is read back (`TitleMisleads`).

## Model

| member | source | states |
|---|---|---|
| `Expressions.EqualsConstant` | scripts/config/expr.c:1030-1102 | comparing a bool or tristate symbol with a constant, by numbers or by text, compares tristate levels |
| `Spelling.DecimalRead` | scripts/config/expr.c:998-1028 | every whole number printed in decimal is read back as itself, in base 10 or with the base left open |
| `Spelling.HexadecimalRead` | scripts/config/expr.c:998-1028 | hexadecimal digits are read back in base 16, and with 0x in front in any base but 10 |
| `Spelling.OtherSpellings` | scripts/config/expr.c:998-1028 | leading white space and a plus sign do not change a number; with the base left open a leading 0 means octal |
| `Spelling.NotANumber` | scripts/config/expr.c:1026-1027 | digits followed by anything else are no number |
| `Spelling.RangeRead` | scripts/config/expr.c:1013-1027 | a number counts if and only if it is in the range of the signed or unsigned 64-bit type |
| `Relations.NumbersCompared` | scripts/config/expr.c:1068-1102 | the six relations between symbols that show numbers are those of the numbers; modulo 2^64 if one is hex |
| `Relations.TextOrder` | scripts/config/expr.c:1078-1080 | the sign of a string comparison tells which is first at the first difference, a prefix before the longer text |
| `Relations.TextsCompared` | scripts/config/expr.c:1068-1102 | two strings, or anything of which one side is no number, are related as texts |
| `Relations.LevelsCompared` | scripts/config/expr.c:1068-1102 | two bool or tristate symbols are related as n < m < y |
| `Relations.LettersCompared` | scripts/config/expr.c:1068-1102 | compared with the constants n, m, y by < or > the letters decide: m < n < y |
| `Equality.EliminateYnFolds` | scripts/config/expr.c:316-397 | no operand y or n remains; the expression shrinks if and only if there was one |
| `Equality.EliminateYnValue` | scripts/config/expr.c:316-397 | folding keeps the value in every environment |
| `Equality.CancelSound` | scripts/config/expr.c:150-190 | there is one value that both sides lose: each side is its residue combined with it |
| `Equality.EliminateEqMonotone` | scripts/config/expr.c:221-241 | the order of the residues, either way, is the order of the originals |
| `Equality.ExprEqSound` | scripts/config/expr.c:252-303 | expressions the test calls equal have equal values in every environment |
| `Equality.SupersetSound` | scripts/config/menu.c:459-470 | if y is left of the second expression, the first is pointwise at most the second |
| `OperandLists.CancelTree` | scripts/config/expr.c:150-190 | walking two operand trees cancels as walking their operand lists does |
| `OperandLists.ExprEqReflexive` | scripts/config/expr.c:252-303 | every expression is equal to itself |
| `OperandLists.RegroupingEqual` | scripts/config/expr.c:252-303 | the same operands in the same order are equal however they are grouped |
| `OperandShapes.PermutationExact` | scripts/config/expr.c:246-303 | for all expressions without an operand y or n: equal if and only if they agree up to order and grouping of operands at every depth |
| `OperandShapes.EqualityIsEquivalence` | scripts/config/expr.c:246-303 | on such expressions the test is reflexive, symmetric and transitive |
| `OperandShapes.OrderMatters` | scripts/config/expr.c:246-303 | with nested operands n: three spellings of A && B of which the first and last are not equal though both equal the middle one, and a level that is not equal to itself in another order |
| `OperandShapes.RepetitionMatters` | scripts/config/expr.c:246-303 | A && A && B is not equal to A && B, against the comment above the function |
| `Joins.JoinRules` | scripts/config/expr.c:431-587 | the joins of two tests of one tristate symbol, for all three constants and either order |
| `Joins.JoinSymbolRules` | scripts/config/expr.c:431-587 | the joins of a symbol with a test or negation of itself, in either order |
| `Joins.JoinEqual` | scripts/config/expr.c:431-504 | two equal operands are joined into one, by either operator |
| `Joins.ExclusionApplies` | scripts/config/expr.c:540-553 | the exclusion rule is tried for all constants, in either order of the operands |
| `Joins.JoinOrSound` | scripts/config/expr.c:431-493 | an OR-join has the value of the pair in every well-typed environment |
| `Joins.JoinAndSound` | scripts/config/expr.c:495-587 | an AND-join has the value of the pair, for canonical operands |
| `Joins.JoinExclusionExact` | scripts/config/expr.c:540-553 | (a = b) && (a != c) may become (a = b) if and only if b and c do not spell one value |
| `Joins.JoinExclusionFails` | scripts/config/expr.c:540-553 | the rule fires on a = y && a != "2" and changes its value |
| `Joins.JoinSound` | scripts/config/expr.c:431-587 | a join is equivalent to the pair and canonical again |
| `Joins.JoinSize` | scripts/config/expr.c:431-587 | a join is no larger than its first operand and adds no level |
| `Slots.PutOperand` | scripts/config/expr.c:596-651 | writing an operand slot replaces its contribution and nothing else of the level's value |
| `Slots.PutTwo` | scripts/config/expr.c:627-648 | writing two distinct operand slots keeps the value if the two together keep theirs |
| `Slots.OperandSlots` | scripts/config/expr.c:596-651 | distinct positions among the operands are distinct slots |
| `Duplicates.ExprTree.EliminateYnInPlace` | scripts/config/expr.c:316-397 | folding at a slot, in place |
| `Duplicates.ExprTree.EliminateDups1` | scripts/config/expr.c:596-651 | the walk over two slots that may overlap writes one subtree as the pass function says and counts its joins |
| `Duplicates.ExprTree.CompareOperands` | scripts/config/expr.c:615-648 | the same for one pair of distinct operand slots |
| `Duplicates.PassOutcome` | scripts/config/expr.c:596-651 | a pass keeps the value of canonical and the form of normalised expressions; it counts nothing exactly if all pairs were tried in vain, and something only if the level was not reduced |
| `Duplicates.TriedReduced` | scripts/config/expr.c:596-651 | a level whose pairs were all tried in vain is reduced, at every depth |
| `Duplicates.ReducedTried` | scripts/config/expr.c:596-651 | a reduced level has no pair left to try |
| `Duplicates.EliminateDups` | scripts/config/expr.c:664-686 | the loop ends with the function of its input; the result is reduced, equivalent for canonical input, and smaller unless nothing was to do |
| `Duplicates.DedupMeaning` | scripts/config/expr.c:664-686 | simplifying keeps the value of canonical and the form of normalised expressions; the result is reduced, and smaller if and only if the input was not |
| `Repetitions.DedupNoRepeats` | scripts/config/expr.c:596-686 | in the result, for every expression, no two operands of one level at any depth are equal |
| `Repetitions.DedupConstantFree` | scripts/config/expr.c:664-686 | without operands y and n the result has none |
| `Repetitions.DedupDistinct` | scripts/config/expr.c:664-686 | then the operands of every level, at any depth, differ even up to order and grouping |
| `Normalisation.Transform` | scripts/config/expr.c:694-849 | terminates and never increases a weight under which pushing a negation down pays |
| `Normalisation.TransformNormal` | scripts/config/expr.c:694-849 | negations are left only above symbols other than y, m, n; no bool symbol is tested = or != against them |
| `Normalisation.NormalFixed` | scripts/config/expr.c:694-849 | an expression of that form is returned unchanged |
| `Normalisation.TransformIdempotent` | scripts/config/expr.c:694-849 | transforming twice is transforming once |
| `Normalisation.TransformValue` | scripts/config/expr.c:694-849 | the value is kept in every well-typed environment |
| `Normalisation.TransformCanonical` | scripts/config/expr.c:694-849 | canonical expressions stay canonical |
| `Normalisation.TransBoolPromotes` | scripts/config/expr.c:402-426 | on normalised expressions the value is n exactly where it was n and is never raised, so with m promoted to y it is unchanged |
| `Normalisation.TransBoolRemoves` | scripts/config/expr.c:402-426 | no test "tristate symbol != n" is left, and without one nothing changes |
| `Normalisation.TransBoolNeedsNormal` | scripts/config/expr.c:402-426 | below a negation the promoted value changes in some environment |
| `Normalisation.TransCompareValue` | scripts/config/expr.c:922-985 | the result is y or n, and the intended answer if the expression is y or n or has no negation |
| `Normalisation.TransCompareNegatedSymbol` | scripts/config/expr.c:953-954 | for a negated symbol the answer is right if and only if the symbol is not m |
| `Submenu.CancelInPlace` | scripts/config/expr.c:150-190 | cancelling through slots of two trees writes the two residues and nothing else |
| `Submenu.EliminateEqInPlace` | scripts/config/expr.c:221-241 | the two roots become the two residues |
| `Submenu.RewriteMValue` | scripts/config/menu.c:83-106 | with module support on, the rewriting changes no value; with it off, the constant m counts as n |
| `Submenu.Propagate` | scripts/config/menu.c:335-339 | the combined condition: the minimum of the inherited and the rewritten own one, reduced, normalised if the inherited one is, and absent only if both are |
| `Submenu.CombinedMeaning` | scripts/config/menu.c:335-339 | that this is what the simplified conjunction means, in every well-typed environment |
| `Submenu.NotNo` | scripts/config/menu.c:435-437 | the simplified "is not n": equivalent, reduced and normalised |
| `Submenu.NotNoMeaning` | scripts/config/menu.c:435-437 | the same of the expression the test is made on |
| `Submenu.NotNoExact` | scripts/config/expr.c:922-985 | for conditions without negation that is y exactly where the condition is not n |
| `Submenu.IsSuperset` | scripts/config/menu.c:459-470 | accepts exactly if removing the operands shared by the two simplified conditions leaves y of the base; then the item's "not n" is pointwise at most the base's |
| `Submenu.SupersetMeaning` | scripts/config/menu.c:450-470 | without negations: where the item's condition is not n, the symbol's is not n |
| `Supersets.UsedUpExact` | scripts/config/expr.c:221-241 | without operands y and n: nothing but y is left of the second expression if and only if it is y, or the first is a conjunction and every conjunct of the second occurs in it up to order and grouping |
| `Supersets.SupersetExact` | scripts/config/menu.c:459-470 | so the test accepts an item exactly if its condition is a conjunction that contains all conjuncts of the symbol's, or the symbol has none |
| `MenuForest.Flatten` | scripts/config/menu.c:554-563 | splicing out promptless nodes keeps the preorder listing |
| `MenuForest.FlattenClean` | scripts/config/menu.c:554-563 | afterwards no promptless node has children, if none deeper had |
| `MenuForest.Finalize` | scripts/config/menu.c:285-592 | finalising keeps the preorder listing and the first node |
| `MenuForest.FinalizeClean` | scripts/config/menu.c:285-592 | no promptless node below the finalised one has children |
| `MenuForest.AbsorbMaximal` | scripts/config/menu.c:441-475 | a symbol takes every following item up to the first refused one, and no other |
| `MenuSiblings.FirstItem` | scripts/config/menu.c:434-481 | a symbol without children refuses what is left behind it, and an accepted next item is its first child |
| `MenuPlaces.TreeFollows` | scripts/config/menu.c:406-551 | the parent of every node is told by the parsed lists: the innermost symbol still open that accepts it, or where that has no prompt the node it is below |
| `MenuPlaces.TreeUnique` | scripts/config/menu.c:406-551 | order and parents determine a tree |
| `MenuPlaces.FinalizeExact` | scripts/config/menu.c:406-551 | a tree over the same nodes in source order is the finalised one if and only if its parents are these |
| `MenuSiblings.NextItem` | scripts/config/menu.c:434-481 | anywhere in the tree: the item after a prompted symbol without children becomes its child if and only if the symbol accepts it |
| `MenuSiblings.ChildrenAccepted` | scripts/config/menu.c:411-481 | every later item of its list that is a child of such a symbol was accepted by it or by a promptless child of it |
| `MenuSiblings.MovedUp` | scripts/config/menu.c:526-565 | the second case occurs: a child that its parent does not accept |
| `MenuSiblings.TreeNeighbours` | scripts/config/menu.c:434-481 | in the finalised tree a prompted symbol without parsed children refuses the node right behind it, if both were in one list |
| `MenuForest.FinalizeFrame` | scripts/config/menu.c:285-592 | the result depends only on the answers about nodes in the finalised subtree |
| `MenuConditions.DependsContains` | scripts/config/expr.c:851-906 | an item that demands a symbol passes the earlier test for mentioning it |
| `MenuConditions.DependsMeaning` | scripts/config/expr.c:879-906 | a condition that demands a symbol is n wherever the symbol is n |
| `SubmenuTest.ContainsExact` | scripts/config/expr.c:851-877 | a condition contains a symbol if and only if it mentions it |
| `SubmenuTest.DependsExact` | scripts/config/expr.c:879-905 | a condition depends on a symbol if and only if a conjunct is S, S=y, S=m or S!=n |
| `SubmenuTest.AcceptsExact` | scripts/config/menu.c:436-470 | an item is accepted if and only if the condition of its prompt, else its own, mentions the symbol and demands it or includes the condition of the symbol's prompt |
| `MenuConditions.ChildrenInherit` | scripts/config/menu.c:330-401 | when the children of a node have inherited from it, exactly they have reached their conditions, and all others are as before |
| `MenuConditions.DerivedMeans` | scripts/config/menu.c:335-385 | an inherited dependency is the minimum of the parent's and its own; a property's condition is never above that and its own, and equal to it, exactly for tristate symbols and up to m for those without an m state |
| `MenuConditions.ParentLimits` | scripts/config/menu.c:317-384 | no node or property is visible above its parent: an item of a choice not above the mode of the choice |
| `MenuConditions.TestsRemoved` | scripts/config/menu.c:373-384 | the conditions of a symbol that is not tristate hold no test S!=n of a tristate symbol |
| `MenuConditions.SpreadDerived` | scripts/config/menu.c:330-401 | the conditions spread from the top are, at every node, those inherited from its parsed parent |
| `MenuFinalize.MenuTree.constructor` | scripts/config/menu.c:285-592 | the tree as parsed, with nothing finalised |
| `MenuFinalize.MenuTree.Inherit` | scripts/config/menu.c:335-385 | one child's dependency becomes its parent's and its own, and each of its properties' conditions that and the property's own; nothing else changes |
| `MenuFinalize.MenuTree.PropagateChildren` | scripts/config/menu.c:330-401 | exactly the children inherit, each once, with all their properties |
| `MenuFinalize.MenuTree.Test` | scripts/config/menu.c:442-470 | accepts exactly if the item's condition mentions the symbol and either demands it or includes the symbol's condition |
| `MenuFinalize.MenuTree.FinalizeChildren` | scripts/config/menu.c:410-411 | the child list becomes the finalised list, with coherent links, touching only its nodes |
| `MenuFinalize.MenuTree.AbsorbItems` | scripts/config/menu.c:439-475 | the items taken form a list below the symbol, the rest one beside it; all taken pass the test and the first item left fails it |
| `MenuFinalize.MenuTree.AbsorbInPlace` | scripts/config/menu.c:435-481 | the symbol's child list is what it took, its sibling the first item left |
| `MenuFinalize.MenuTree.FillMenu` | scripts/config/menu.c:293-481 | children finalised or following items taken, before flattening |
| `MenuFinalize.MenuTree.Reparent` | scripts/config/menu.c:555-559 | a child list moves to another parent; only parent links of its nodes change |
| `MenuFinalize.MenuTree.Splice` | scripts/config/menu.c:554-563 | the children of a node become the siblings right behind it |
| `MenuFinalize.MenuTree.FlattenInPlace` | scripts/config/menu.c:485-564 | the child list becomes the flattened list, with coherent links |
| `MenuFinalize.MenuTree.FinalizeNode` | scripts/config/menu.c:285-592 | links describe the finalised subtree; its nodes, and no others, were finalised, in source order |
| `MenuFinalize.TreeMeans` | scripts/config/menu.c:330-401 | for canonical conditions: at every node of the tree the conditions reached have that meaning |
| `MenuFinalize.FinalizeTree` | scripts/config/menu.c:285-592 | whole tree: every node has the conditions inherited from its parsed parent; its parent is that told by the symbols still open where it stands under the submenu test on these conditions; a prompted symbol without children refuses the node right behind it; source order kept and equal to the order of finalising, no node twice, links coherent, no promptless node with children |
| `SymbolRules.RuleFrame` | scripts/config/symbol.c:177-446 | a symbol's value depends only on the symbols its rules mention |
| `SymbolRules.SolutionExists` | scripts/config/symbol.c:304-446 | without cyclic dependencies some assignment satisfies every rule |
| `SymbolRules.SolutionUnique` | scripts/config/symbol.c:304-446 | and only one does |
| `SymbolTheorems.SolutionWellTyped` | scripts/config/symbol.c:304-446 | in a solution no bool symbol is m and, without modules, nothing is: what the optimiser assumes |
| `SymbolTheorems.SelectsRecorded` | scripts/config/menu.c:387-399 | every select remains one alternative of the reverse dependency |
| `SymbolTheorems.SelectClosure` | scripts/config/symbol.c:385-392 | a selected symbol is at least the minimum of selector and condition, unless its direct dependency is n: then it is n |
| `SymbolTheorems.PickVisible` | scripts/config/symbol.c:246-302 | the member a choice picks is visible; none is picked only if none is visible |
| `SymbolTheorems.ExactlyOneMember` | scripts/config/symbol.c:352-417 | a choice that is y has exactly one member y, the picked one, and all others n |
| `SymbolTheorems.EmptyChoice` | scripts/config/symbol.c:272-302 | a choice to be set to y ends up y if and only if some member is visible |
| `SymbolTheorems.LowerUnaffected` | scripts/config/symbol.c:448-512 | setting a symbol changes nothing it depends on |
| `SymbolTheorems.SetTakesEffect` | scripts/config/symbol.c:448-512 | an accepted value results if and only if the direct dependency is not n, or nothing selects the symbol, or the value is n; otherwise the result is n |
| `SymbolTheorems.AcceptedChangeLost` | scripts/config/symbol.c:385-392 | a symbol defined without a condition and again under one that is n, selected as m: setting it to y is accepted, and it is n afterwards |
| `SymbolTheorems.UniformTakesEffect` | scripts/config/menu.c:483 | if the definitions of a symbol all have a condition, or none has, every accepted change takes effect |
| `SymbolTheorems.PickTakesEffect` | scripts/config/symbol.c:272-302 | a visible member the user has picked is y if and only if its choice is |
| `SymbolValues.VisibleAsPrompts` | scripts/config/symbol.c:177-209 | a symbol is as visible as its most visible prompt, n if it has none, and y instead of m where it cannot be m |
| `SymbolValues.VisibleInChoice` | scripts/config/symbol.c:195-199 | a tristate member of a choice set to y is visible only by a prompt that is y |
| `SymbolValues.DefaultTaken` | scripts/config/symbol.c:371-393 | in every solution: a symbol the user has no say in takes the first default whose condition is not n, limited by that condition; imply raises this up to the direct dependency, select up to its own value unless the direct dependency is n |
| `SymbolValues.DefaultAlone` | scripts/config/symbol.c:371-393 | without imply and select it is just that, and n if no condition holds |
| `SymbolValues.WishTaken` | scripts/config/symbol.c:357-393 | the user's value is limited by the visibility and raised by select |
| `SymbolValues.TextTaken` | scripts/config/symbol.c:394-411 | an int, hex or string symbol has the user's text while visible, else the text of the first default whose condition is not n, else none |
| `SymbolValues.OtherTexts` | scripts/config/symbol.c:325-340 | as a text every bool or tristate symbol is n, and a symbol without type its name |
| `SymbolValues.ChoiceTaken` | scripts/config/symbol.c:357-417 | a choice has the user's value or what selects it, never a default; instead of y it is n while no member is visible |
| `SymbolValues.MemberTaken` | scripts/config/symbol.c:352-393 | a member that is not fully visible has the user's value or that of its first active default |
| `SymbolValues.PickedAs` | scripts/config/symbol.c:246-302 | the member of a choice set to y that is y: the user's if visible, else that of the first default with a condition and a visible member, else the first visible one |
| `SymbolValues.LostMark` | scripts/config/symbol.c:279-288 | a choice that has lost the mark of being set stays y at the next calculation if and only if it is selected |
| `SymbolValues.RangeExact` | scripts/config/symbol.c:459-476 | a value of a visible symbol is accepted if and only if select leaves a choice and recalculating with it gives it back |
| `SymbolValues.MemberRangeExact` | scripts/config/symbol.c:459-476 | for a member visible only as m: if and only if recalculating gives it back |
| `SymbolEvaluator.Evaluator.constructor` | scripts/config/symbol.c:448-457 | nothing is valid at first |
| `SymbolEvaluator.Evaluator.CalcExpr` | scripts/config/expr.c:1030-1102 | the value in the solution, leaving all symbols of the expression calculated |
| `SymbolEvaluator.Evaluator.ReadSymbol` | scripts/config/expr.c:1041-1044 | afterwards the symbol shows its value in the solution |
| `SymbolEvaluator.Evaluator.CalcOpt` | scripts/config/symbol.c:210-232 | a missing expression has the given value |
| `SymbolEvaluator.Evaluator.CalcVisibility` | scripts/config/symbol.c:177-238 | the visibility and dependency fields are those of the solution, other unfinished symbols untouched |
| `SymbolEvaluator.Evaluator.CalcPrompts` | scripts/config/symbol.c:183-203 | the maximum over the prompts, in the solution |
| `SymbolEvaluator.Evaluator.CalcDependencies` | scripts/config/symbol.c:210-237 | direct, reverse and weak reverse dependency, in the solution |
| `SymbolEvaluator.Evaluator.GetDefault` | scripts/config/symbol.c:83-93 | the first default whose condition is not n |
| `SymbolEvaluator.Evaluator.CalcDefault` | scripts/config/symbol.c:371-384 | the default's value, limited by its condition and raised by imply |
| `SymbolEvaluator.Evaluator.CalcOwn` | scripts/config/symbol.c:355-384 | user value, choice membership or default, before reverse dependencies |
| `SymbolEvaluator.Evaluator.CalcLogical` | scripts/config/symbol.c:353-392 | the value after reverse dependencies and promotion |
| `SymbolEvaluator.Evaluator.CalcText` | scripts/config/symbol.c:394-410 | the text of an int, hex or string symbol in the solution |
| `SymbolEvaluator.Evaluator.CalcChoiceDefault` | scripts/config/symbol.c:252-260 | the first default whose member is visible |
| `SymbolEvaluator.Evaluator.FirstVisibleMember` | scripts/config/symbol.c:262-269 | the first visible member |
| `SymbolEvaluator.Evaluator.CalcMembers` | scripts/config/symbol.c:279-288 | the visibility of every member, and whether the user has set all visible ones |
| `SymbolEvaluator.Evaluator.CalcChoice` | scripts/config/symbol.c:272-302 | picks the member of the specification, seeing the choice as y |
| `SymbolEvaluator.Evaluator.FinishLogical` | scripts/config/symbol.c:344-417 | a bool or tristate symbol is finished with its value in the solution; a choice set to y loses its mark of being set exactly if a visible member is not set |
| `SymbolEvaluator.Evaluator.FinishText` | scripts/config/symbol.c:394-415 | the same for a text symbol |
| `SymbolEvaluator.Evaluator.CalcValue` | scripts/config/symbol.c:304-446 | a valid symbol costs nothing; any other is finished with its value in the solution, whatever was finished before |
| `SymbolEvaluator.Evaluator.Query` | scripts/config/symbol.c:304-446 | any sequence of queries is answered from the one solution, and what was finished stays finished |
| `SymbolEvaluator.Evaluator.TristateWithinRange` | scripts/config/symbol.c:459-476 | whether a value is allowed, from the calculated fields |
| `SymbolEvaluator.Evaluator.SetTristateValue` | scripts/config/symbol.c:478-512 | for every symbol: accepted exactly if unchanged or in range; a refusal changes nothing, a change invalidates everything; a member set to y becomes the pick and all visible members count as set |
| `SymbolEvaluator.Evaluator.MarkMembers` | scripts/config/symbol.c:500-504 | exactly the visible members are marked as set |
| `SymbolEvaluator.GroupMarked` | scripts/config/symbol.c:485-507 | setting a member to y marks the choice and its visible members as set, makes it the pick, and says nothing about any other symbol |
| `SymbolEvaluator.Evaluator.AcceptedInRange` | scripts/config/symbol.c:459-512 | for a calculated symbol outside choices the test on its fields is the test on the solution |
| `SymbolEvaluator.Evaluator.ChangeAndRecalculate` | scripts/config/symbol.c:448-512 | change and recalculation: the symbol has the new solution's value, and it is the requested one under the exact condition |
| `SymbolEvaluator.Evaluator.PickAndRecalculate` | scripts/config/symbol.c:478-512 | a member set to y and recalculated has the new solution's value; if visible, it is y exactly if the choice is |
| `CycleCheck.VisitBalanced` | scripts/config/symbol.c:1229-1261 | the marks "being checked" are exactly the active calls; the symbol ends up checked |
| `CycleCheck.AcyclicPasses` | scripts/config/symbol.c:1109-1261 | if groups can be numbered downwards, no order of checking reports an error |
| `CycleCheck.PassesAcyclic` | scripts/config/symbol.c:1109-1261 | if checking all symbols reports nothing, the references each symbol makes have no cycle |
| `CycleCheck.CheckExact` | scripts/config/parser.tab.c:1978-1983 | without choices: no error, in whatever order, if and only if the dependencies have no cycle |
| `CycleCheck.GroupRankedIsRanked` | scripts/config/symbol.c:1192-1227 | a numbering of groups is one of symbols under which all values are determined |
| `CycleCheck.RefsAreDeps` | scripts/config/symbol.c:1144-1190 | what the check visits is what the value depends on |
| `CycleCheck.RefsExact` | scripts/config/symbol.c:1144-1188 | a symbol is visited if and only if a dependency, a prompt's or default's condition or, outside choices, a default's value mentions it |
| `CycleCheck.ChoiceOrderMatters` | scripts/config/symbol.c:1192-1227 | one configuration passes starting at the choice and fails starting elsewhere |
| `CycleCheck.Checker.CheckExprDeps` | scripts/config/symbol.c:1109-1141 | the references of an expression, left to right, until one fails |
| `CycleCheck.Checker.CheckOptDeps` | scripts/config/symbol.c:1109-1114 | the same for an expression that may be missing, unless one failed before |
| `CycleCheck.Checker.CheckSymDeps` | scripts/config/symbol.c:1144-1190 | verdict and marks after all properties of a symbol |
| `CycleCheck.Checker.CheckChoiceDeps` | scripts/config/symbol.c:1192-1227 | verdict and marks after a choice and its members |
| `CycleCheck.Checker.CheckDeps` | scripts/config/symbol.c:1229-1261 | verdict and marks after a symbol of any kind |
| `CycleOrders.NoCycleThrough` | scripts/config/symbol.c:1109-1261 | if every order passes, no reference other than from a member to a choice lies on a cycle |
| `CycleOrders.CheckExactWithChoices` | scripts/config/symbol.c:1109-1261 | with choices: every order passes if and only if groups can be numbered so that all references go down except from members to choices |
| `CycleOrders.MutualChoicesPass` | scripts/config/symbol.c:1192-1227 | two choices that depend on each other through their members are never reported |
| `ConfText.UnescapeEscape` | scripts/config/symbol.c:854-895 | unescaping what was escaped gives the string back, for every string and whatever follows |
| `ConfText.ReadStorable` | scripts/config/confdata.c:436-503 | no text makes the reader store a value its type does not allow |
| `ConfText.SettingRead` | scripts/config/confdata.c:608-629 | the line written for a storable value is read as exactly that value |
| `ConfText.WriteReadExact` | scripts/config/confdata.c:230-289 | a written value is read back if and only if it is storable: no m for a bool, a valid number, one line |
| `ConfText.RemarkExact` | scripts/config/confdata.c:439-467 | a remark changes nothing if and only if it does not read as switching a declared symbol off that is not off |
| `ConfText.TitleMisleads` | scripts/config/confdata.c:893-896 | a menu titled like an unset symbol switches that symbol off |
| `ConfText.FileRead` | scripts/config/confdata.c:436-503 | reading a written file leaves every symbol with the last value written for it |
| `ConfLaws.Escaped` | scripts/config/symbol.c:854-895 | text without quotes and backslashes is written as it is, each of these with a backslash in front |
| `ConfLaws.SwitchedOff` | scripts/config/confdata.c:614-622 | n is written and read as the comment "is not set" |
| `ConfLaws.ReturnDropped` | scripts/config/confdata.c:473-478 | a carriage return at the end of an assignment is dropped |
| `ConfLaws.OtherLines` | scripts/config/confdata.c:437-503 | lines that are no assignment or comment, and assignments to unknown symbols, have no effect |
| `ConfLaws.ConstantsIgnored` | scripts/config/confdata.c:480-495 | y, m and n cannot be assigned |
| `ConfLaws.LogicalRead` | scripts/config/confdata.c:234-256 | only the first letter of a bool or tristate value counts; m is no value of a bool |
| `ConfLaws.StringRead` | scripts/config/confdata.c:257-271 | a string is what stands between two quotes, a backslash standing for the next character; without a quote there is no value, and what follows the second is ignored |
| `ConfLaws.IntExact` | scripts/config/symbol.c:537-556 | an int is valid if and only if it is a number as printed in decimal, or -0 |
| `ConfLaws.HexExact` | scripts/config/symbol.c:557-568 | a hex is valid if and only if it is one or more hexadecimal digits, with or without 0x |
| `ConfReader.DropChar` | scripts/config/confdata.c:265 | the string loses its first character in place; what precedes it stays |
| `ConfReader.UnescapeInPlace` | scripts/config/confdata.c:257-271 | succeeds exactly if there is a closing quote, and leaves the unescaped text in the buffer |
| `ConfReader.EscapeValue` | scripts/config/symbol.c:854-895 | the copy by stretches is the character-wise escape |
| `ConfReader.GetLine` | scripts/config/confdata.c:312-344 | the text up to and including the first line end, with a NUL |
| `ConfReader.Reader.constructor` | scripts/config/confdata.c:346-369 | reading starts without values |
| `ConfReader.Reader.SetSymVal` | scripts/config/confdata.c:230-289 | stores the parsed value, or nothing if it is invalid for the type |
| `ConfReader.Reader.ReadCommentAt` | scripts/config/confdata.c:439-467 | only "CONFIG_name is not set" of a declared bool or tristate symbol has an effect |
| `ConfReader.Reader.CutValue` | scripts/config/confdata.c:473-478 | the value ends before the line end and one carriage return before it |
| `ConfReader.Reader.ReadAssignmentAt` | scripts/config/confdata.c:468-496 | name and value are split at the first equals sign |
| `ConfReader.Reader.ReadLineInPlace` | scripts/config/confdata.c:437-503 | editing the line in place has the effect of parsing it as text |
| `ConfReader.Reader.ReadSimple` | scripts/config/confdata.c:436-503 | the whole file |
| `ConfWriter.TracePreorder` | scripts/config/confdata.c:886-930 | the walk enters the nodes in preorder, each as often as it occurs |
| `ConfWriter.Writer.constructor` | scripts/config/confdata.c:881-886 | nothing is written at first |
| `ConfWriter.Writer.Visit` | scripts/config/confdata.c:888-909 | what one node adds to the output |
| `ConfWriter.Writer.Depart` | scripts/config/confdata.c:919-924 | what leaving a node adds |
| `ConfWriter.Writer.Climb` | scripts/config/confdata.c:918-929 | going up leaves exactly the events still ahead, strictly fewer |
| `ConfWriter.Writer.Walk` | scripts/config/confdata.c:886-930 | the stackless walk terminates and is the recursive traversal |
| `ConfWriter.RunOnce` | scripts/config/confdata.c:898-909 | every symbol is written at most once, and the written ones are those wanted |
| `ConfWriter.RunFaithful` | scripts/config/confdata.c:886-930 | everything written is a symbol with its own value or a harmless remark |
| `ConfWriter.WriteRead` | scripts/config/confdata.c:881-930 | reading the output gives exactly the wanted symbols, each with its value |
| `ConfWriter.WantedNodes` | scripts/config/confdata.c:898-909 | wanted are the writable symbols of the nodes below the root |
| `ConfLayout.Layout` | scripts/config/confdata.c:886-930 | the settings are the first occurrences of writable symbols in source order, every visible menu is announced around what it holds, and a setting after the end of a menu is set off by a blank line |
| `ConfLayout.FirstsExact` | scripts/config/confdata.c:898-909 | these are the symbols of the nodes that are no choices and to be written, each once |
| `ConfFile.PrintSymbol` | scripts/config/confdata.c:608-629 | the line for a value of each type |
| `ConfFile.PrintItem` | scripts/config/confdata.c:731-749 | the text of a setting, remark or blank |
| `ConfFile.Print` | scripts/config/confdata.c:881-930 | the text of the whole file |
| `ConfFile.SaveAndLoad` | scripts/config/confdata.c:842-930 | walk, print and read: the file lists the writable symbols in the order of the tree and announces its visible menus; the values loaded are those of the writable symbols with a node below the root, and no others |
| `Macros.BudgetSpent` | scripts/config/preprocess.c:251-277 | entering a variable uses up part of a finite budget: why expansion ends |
| `Macros.ShellText` | scripts/config/preprocess.c:141-179 | the output of a command has at most 255 characters and no line end |
| `Macros.PlainText` | scripts/config/preprocess.c:495-537 | text without a dollar sign is returned unchanged |
| `Macros.PlainPrefix` | scripts/config/preprocess.c:495-537 | text before a reference does not change the expansion of what follows |
| `Macros.CloseAfterBalanced` | scripts/config/preprocess.c:453-488 | the parenthesis found is the one that closes the reference, however nested |
| `Macros.ReferenceLaw` | scripts/config/preprocess.c:453-537 | a reference followed by text is the value of its clause, then the expansion of the text; an error stops |
| `Macros.ExpandSame` | scripts/config/preprocess.c:251-277 | a successful expansion is the same at any smaller depth: counters only decide about giving up |
| `Macros.EvalSame` | scripts/config/preprocess.c:346-439 | the same for a clause |
| `Macros.FieldsSame` | scripts/config/preprocess.c:407-411 | the same for a list of arguments |
| `Macros.CallSame` | scripts/config/preprocess.c:251-277 | the same for a call |
| `Macros.SelfReferenceReported` | scripts/config/preprocess.c:251-277 | variables that refer to themselves, directly or through each other, are always reported, never expanded |
| `MacroLaws.ArgumentByPosition` | scripts/config/preprocess.c:362-366 | the decimal spelling of a position stands for the argument at that position |
| `MacroLaws.ArgumentSubstituted` | scripts/config/preprocess.c:362-366 | in a text with a position in it: the text before, the argument, the expansion of the rest |
| `MacroLaws.TemplateFilled` | scripts/config/preprocess.c:362-366 | a text with any number of positions is the text with the arguments put in |
| `MacroLaws.SplitListing` | scripts/config/preprocess.c:384-399 | commas outside parentheses separate the fields of a clause, those inside do not |
| `MacroLaws.ClauseCalls` | scripts/config/preprocess.c:407-439 | a clause of plain texts is the call of the first with the others |
| `MacroLaws.ClauseTooLong` | scripts/config/preprocess.c:387-390 | a clause with more than 16 fields is an error |
| `MacroLaws.Substitution` | scripts/config/preprocess.c:249-278 | a call of a recursive variable puts its arguments into the variable's text; what follows the call is expanded as it would be alone |
| `MacroLaws.VariableFirst` | scripts/config/preprocess.c:239-278 | the first variable of a name hides all else; without arguments inside itself, or nested more than 1000 times, it is an error |
| `MacroLaws.FunctionThenEnvironment` | scripts/config/preprocess.c:413-430 | a function hides the environment, which is asked only without arguments; anything unknown is empty |
| `MacroLaws.Functions` | scripts/config/preprocess.c:112-187 | what each of the six functions gives, and that error-if alone can fail |
| `MacroLaws.FunctionArguments` | scripts/config/preprocess.c:188-222 | each function takes exactly its own number of arguments |
| `MacroLaws.ShellOutput` | scripts/config/preprocess.c:141-178 | the first 255 characters of the output without line ends at their end, those within as blanks |
| `MacroLaws.LoneDollar` | scripts/config/preprocess.c:464-467 | a dollar sign without parenthesis is an ordinary character |
| `MacroLaws.UnterminatedReported` | scripts/config/preprocess.c:470-482 | a reference that is not closed is an error |
| `MacroLaws.TokenEnds` | scripts/config/preprocess.c:559-575 | a token is the longest stretch of letters, digits and _ - . /, and the rest is left |
| `MacroExpander.ScanClose` | scripts/config/preprocess.c:469-479 | finds the closing parenthesis, or the end |
| `MacroExpander.ScanFields` | scripts/config/preprocess.c:384-399 | cuts a clause at its outermost commas |
| `MacroExpander.ScanVariable` | scripts/config/preprocess.c:239-249 | the first variable of the name |
| `MacroExpander.Expander.constructor` | scripts/config/preprocess.c:279-322 | all depth counters are zero at first |
| `MacroExpander.Expander.ExpandString` | scripts/config/preprocess.c:495-537 | the specified expansion, with all counters restored on success |
| `MacroExpander.Expander.ExpandDollar` | scripts/config/preprocess.c:453-488 | the value of a reference and the position behind it, counters restored |
| `MacroExpander.Expander.EvalClauseAt` | scripts/config/preprocess.c:346-439 | a clause: an argument by number, or a name with its arguments expanded first |
| `MacroExpander.Expander.ExpandAll` | scripts/config/preprocess.c:407-411 | arguments expanded from left to right, until an error |
| `MacroExpander.Expander.CallName` | scripts/config/preprocess.c:413-433 | a variable, else a function, else the environment |
| `WordFormulas.ChSame` | scripts/mkhash.c:450 | the program's Ch is that of section 4.1.2 of FIPS 180-4 |
| `WordFormulas.MajSame` | scripts/mkhash.c:451 | the program's Maj is the standard's |
| `WordFormulas.BigSigmaSame` | scripts/mkhash.c:484-485 | shifts and ORs are the rotations of the standard's upper-case sigmas |
| `WordFormulas.SmallSigmaSame` | scripts/mkhash.c:486-487 | the same for the lower-case sigmas |
| `WordFormulas.T1Same` | scripts/mkhash.c:490-494 | the first temporary of a round is the standard's |
| `WordFormulas.T2Same` | scripts/mkhash.c:490-494 | and the second |
| `WordFormulas.ExpandSame` | scripts/mkhash.c:504-505 | a further schedule word is the standard's |
| `Sha256.RoundInPlace` | scripts/mkhash.c:490-501 | a round with rotating indices is the standard's round on rotated registers |
| `Sha256.SixteenRounds` | scripts/mkhash.c:514-530 | sixteen rounds bring the registers back in place |
| `Sha256.SixteenWords` | scripts/mkhash.c:534-549 | the interleaved schedule, sixteen words ahead |
| `Sha256.DecodeBlock` | scripts/mkhash.c:437-445 | the block as big-endian words |
| `Sha256.AddBack` | scripts/mkhash.c:560-562 | the rounds' result added to the state is the next hash value |
| `Sha256.Transform` | scripts/mkhash.c:458-563 | for every state and block, the next hash value of section 6.2.2 of FIPS 180-4 |
| `Sha256Constants.RoundConstants` | scripts/mkhash.c:461-479 | each round constant is the first 32 fractional bits of a prime's cube root, as in section 4.2.2 of FIPS 180-4 |
| `Sha256Constants.InitialValue` | scripts/mkhash.c:602-618 | the initial words are those of the square roots, as in section 5.3.3 |
| `Sha256Stream.HalfBytes` | scripts/mkhash.c:98-116 | two big-endian halves are the big-endian 64-bit number |
| `Sha256Stream.Context.constructor` | scripts/mkhash.c:602-618 | the empty message |
| `Sha256Stream.Context.Update` | scripts/mkhash.c:621-658 | state and buffer are those of the longer message, counter modulo 2^64 |
| `Sha256Stream.Context.Pad` | scripts/mkhash.c:573-599 | the state of the padded message of section 5.1.1 of FIPS 180-4 |
| `Sha256Stream.Context.Final` | scripts/mkhash.c:664-675 | the digest of everything absorbed |
| `Sha256Stream.HashPieces` | scripts/mkhash.c:715-728 | any division into pieces gives the one-shot digest |
| `Sha256Example.DigestOfAbc` | scripts/mkhash.c:459-686 | the digest of abc is the one of the example in FIPS 180-4 |
| `Md5.MixerSame` | scripts/mkhash.c:151-155 | the optimised F, G, H, H2, I are those of section 3.4 of RFC 1321 |
| `Md5.StepInPlace` | scripts/mkhash.c:160-163 | a listed step is the standard's step on rotated registers |
| `Md5.ListedRight` | scripts/mkhash.c:211-281 | each of the 64 lines has the formula, word, addend and rotation of the step in section 3.4 of RFC 1321 |
| `Md5.BodyBlock` | scripts/mkhash.c:189-297 | the 64 listed steps and the final addition are the standard's block function |
| `Md5.CarryCorrect` | scripts/mkhash.c:316-319 | with the carry seen as a decrease, hi * 2^29 + lo stays the byte count modulo 2^61 |
| `Md5Stream.Body` | scripts/mkhash.c:189-297 | one or more whole blocks |
| `Md5Stream.LengthBytes` | scripts/mkhash.c:365-374 | the two counters, shifted, are the little-endian bit length modulo 2^64 |
| `Md5Stream.Context.constructor` | scripts/mkhash.c:299-308 | the empty message |
| `Md5Stream.Context.Count` | scripts/mkhash.c:316-319 | the counters advance by the size of a piece |
| `Md5Stream.Context.Rest` | scripts/mkhash.c:337-342 | whole blocks from the data, the tail into the buffer |
| `Md5Stream.Context.Hash` | scripts/mkhash.c:310-343 | state, buffer and counters are those of the longer message |
| `Md5Stream.Context.Pad` | scripts/mkhash.c:351-376 | the state of the padded message of sections 3.1 and 3.2 of RFC 1321 |
| `Md5Stream.Context.End` | scripts/mkhash.c:345-396 | the digest of everything absorbed |
| `Md5Stream.HashPieces` | scripts/mkhash.c:700-713 | any division into pieces gives the one-shot digest |
| `Md5Example.DigestOfAbc` | scripts/mkhash.c:189-382 | the digest of abc is the one of appendix A.5 of RFC 1321 |
| `Crc32.BitsAtOnce` | scripts/cfe-partition-tag.py:95-100 | dividing bit by bit is adding the bits at once and shifting |
| `Crc32.EightSteps` | scripts/cfe-partition-tag.py:98 | eight steps move the upper bytes down and add what the lowest byte contributes |
| `Crc32.TableRight` | scripts/cfe-partition-tag.py:25-90 | every table entry is the remainder of its own index |
| `Crc32.ByteStepRight` | scripts/cfe-partition-tag.py:98 | a look-up does the work of eight steps of the division |
| `Crc32.Crc` | scripts/cfe-partition-tag.py:95-100 | for every message and starting value, the remainder of the bit-serial polynomial division |
| `CameoTag.OwnBytes` | scripts/cameo-tag.py:82-84 | a register fed its own four bytes is empty |
| `CameoTag.FixedCrc` | scripts/cameo-tag.py:79-84 | any data followed by its inverted CRC has the CRC 0xffffffff |
| `CrcExample.CheckValue` | scripts/cameo-tag.py:79-80 | the CRC of the digits 1 to 9 is the check value 0xcbf43926 |
| `CameoTag.SumOf` | scripts/cameo-tag.py:76-77 | the byte sum modulo 2^32, big-endian |
| `CameoTag.TotalAppend` | scripts/cameo-tag.py:76-77 | the sum of joined data is the sum of the parts, and that of one byte the byte |
| `CameoTag.SumField` | scripts/cameo-tag.py:76-77 | the field holds this sum modulo 2^32, most significant byte first |
| `CameoTag.TaggedChecks` | scripts/cameo-tag.py:82-94 | the header with its CRC field zeroed has the stored CRC, the stored sum is that of the preceding bytes, and the other fields are kept |
| `CameoTag.ChecksumHeader` | scripts/cameo-tag.py:82-94 | filling in field by field gives that header, and both checks hold |

## Left out

- The user interfaces, the generated lexer and parser, help texts, warnings, regular expressions and memory release.
- Normalisation.Transform: is a function that returns the new tree, as are TransBool, TransCompare and RewriteM; the reuse of the argument's nodes is not captured, and trees do not share nodes.
- Canonical expressions: value preservation of duplicate elimination is stated for them; `JoinExclusionExact` says exactly when the one rule that needs it is sound.
- OperandShapes.PermutationExact: is about expressions without operands y or n; with them equality is sound and reflexive, but `OrderMatters` shows that no relation of this kind describes it.
- Menu wiring: choice types and members (menu.c:299-315, 486-524), the choice's re-propagation (508-517) and the reverse dependency of non-optional choices (587-591) are taken as given in the symbol definitions. Selects and the OR over definitions are modelled on the symbol's side (`SelectsRecorded`, `UniformTakesEffect`).
- SymbolEvaluator.Evaluator.CalcText: leaves out range limits (`sym_validate_range`).
- SymbolEvaluator.Evaluator.FinishText: leaves out range limits.
- SymbolEvaluator.Evaluator.CalcValue: leaves out range limits; module support is a constant; the modes that set choice values at random are not modelled.
- CycleCheck.Checker.CheckSymDeps: does not visit the conditions of range properties.
- CycleCheck.Checker.CheckDeps: treats recursion as an error; the other mode drops the error at the head of the cycle (symbol.c:1257-1258). Properties are visited prompts first, then defaults. The stack kept for messages is left out.
- ConfReader.Reader.ReadSimple: is for user values outside choices (confdata.c:505-523 is left out), with the prefix `CONFIG_`. A comment line shorter than the prefix has no effect; the code then compares what lies behind the text.
- ConfWriter.Writer.Visit: takes it as given which symbols are to be written (`SYMBOL_WRITE`), which menus are visible and what their prompts are.
- ConfWriter.Writer.Walk: is the walk of the full writer; the minimal configuration uses the same walk with another filter (confdata.c:782-837). The heading is not cut at 255 characters. The header and touch-file printers are left out.
- Macros.ShellText: takes the output of a command as given. Commands, environment and file position are parameters.
- MacroExpander.Expander.EvalClauseAt: reports an error from 16 commas on; the code does so from 17 on, and with 16 stores behind its list. Adding variables is left out.
- MacroLaws.ClauseTooLong: is about 16 commas and more, where the code reports an error from 17 on.
- Md5.ListedRight: the standard's addends are those of the table in section 3.4 of RFC 1321, not derived from the sine.
- Sha256Constants.RoundConstants: the list of the first 64 primes is written out, not computed.
- CameoTag.ChecksumHeader: is for whole headers of 64 bytes; the CRC of the zlib library is the division model with all ones before and after.
- Reading files, hexadecimal output, `savedefconfig`, random configurations and all download, flashing and certificate scripts.
