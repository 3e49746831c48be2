# go-rule-engine: rule groups and their logic expressions, in Dafny

go-rule-engine checks a map of facts against a group of rules (`Rules`). Each `Rule` plucks a
value from the map by a dotted key. It compares that value with an expected value through an
operator (`=`, `<`, `@`, `contain`, `regex`, …) and records a boolean outcome under the rule's
integer id. A group may carry a logic expression over those ids, such as
`1 and ( 2 or not 3 )`. The group's verdict is the value of that expression, or the
conjunction of every outcome when there is no expression. A `RulesSet` names its groups and
reports the names of those that fit.

This project models:

* the normaliser `formatLogicExpression` (module `CoreFormat`);
* the three validators that decide whether an expression is accepted: symbol check, trial
  evaluation ("probe") and id check (`CoreCheck`), together with `injectLogic`,
  `injectExtractInfo`, id assignment, the per-rule `fit`/`pluck` and `fitWithMapInFact`
  (`Core`, `CoreValues`);
* group naming and set fitting (`CoreSet`) and the public wrappers in broker.go (`Broker`);
* the stack evaluator `CalculateExpression`: a shunting-yard conversion to postfix, then
  evaluation of the postfix (`RuleLogic`);
* the tree evaluator: bracket elision, splitting into children, the post-order evaluation and
  the breadth-first search for the rule to blame (`Tree`);
* the older variants of these operations in rule_core.go (`LegacyCore`).

Go panics (nil dereference of an empty list, slicing an empty slice, `Children[0]` of a
childless node) are not crashes here. They are an explicit `Panic` outcome of the `Result`
type, beside the `Error` outcome that stands for a returned Go `error`.

The properties proved are grouped by theme:

* **Normalised text.** `Formula` is an expression over ids built from `not`, `and`, `or` and
  explicit bracket pairs (`Group`). `Written(f)` is its normalised text: tokens separated by
  single spaces, brackets where the priority `not` > `and` > `or` needs them, and the bracket
  pairs the formula keeps, as in `( 1 or 2 ) or 3`. A formula is well-bracketed when every
  kept pair encloses an operator: never a lone id, never a second pair. "Canonical text" below
  means the normalised text of a well-bracketed formula.
* **Both evaluators are right on canonical text.** The stack evaluator returns `Eval(f)`
  (`RuleLogicProof.CalculateWritten`). When the text is not one bracket pair as a whole, the
  tree evaluator returns the same value (`TreeProof.ByTreeWritten`), so there the two agree
  (`TreeProof.EvaluatorsAgree`). On the text `( 1 and ( ( 2 and 3 ) or ( 2 and 4 and 5 ) or
  not 2 ) ) or not 1` with ids 1 and 2 true and 3, 4, 5 false, the tree evaluator returns
  false and blames rule 3 (`TreeEdges.WorkedCheck`).
* **Where the evaluators disagree.** A text that is one bracket pair as a whole, such as
  `( 1 or 2 )`, makes the tree evaluator panic: eliding the pair leaves a single key, which
  has no operator, so the root gets no children and `Children[0]` fails. The stack evaluator
  returns the value (`TreeEdges.WholeGroupDisagree`, `TreeEdges.BracketedPair`).
* **The blame finder.** It returns at most one id. That id belongs to a leaf whose value
  differs from the value the leaf should have had (`TreeFacts.BlameSound`).
* **The normaliser.** Its output is trimmed and has no double spaces. Adjacent tokens of
  different classes are separated. It keeps every non-space character in order. Normalising
  twice gives the same text as normalising once (`CoreFormat.FormatIdempotent`).
* **The validators.** They accept every canonical text over known ids
  (`Core.InjectCanonical`). They also accept some texts that are not expressions: `1 2`
  passes all three checks and is stored (`Core.InjectSurplus`).
* **Duplicate ids.** When two rules share an id, the later rule's outcome overwrites the
  earlier one's, so the order of the rules decides the verdict (`Core.DuplicateIdOverwrites`).
* **Id assignment.** It numbers the unnumbered rules above the largest existing id, leaves
  numbered rules alone, and never duplicates an id it assigns.
* **Edge cases of the stack evaluator.** Its behaviour on malformed input is stated as the
  source has it (module `RuleLogicEdges`).

The lower-case `calculateExpression` that core.go:155, core.go:440, rule_core.go:191 and
rule_core.go:476 call is the stack evaluator `CalculateExpression` of rule_logic.go:11, modelled
as `RuleLogic.CalculateExpression`.

Two behaviours of the stack evaluator on bracketed or doubled input are modelled as written:

* `not not n` panics (`RuleLogicEdges.DoubleNot`); so does the tree evaluator
  (`TreeEdges.DoubleNotPanics`).
* `a and ( b ) or c` evaluates as `a and ( b or c )` (`RuleLogicEdges.BracketedId`): `)` has
  a higher priority than `(`, so the `)` after a lone bracketed id is pushed, not matched.

The normaliser always writes a bracketed atom as `( n )`, and it can reach the evaluator in
that form. Well-bracketed formulas never bracket a lone id, never double a bracket pair and
never double a `not`, so these texts lie outside the theorems above.

## Model

| member | source | states |
|---|---|---|
| `RuleLogic.PopOperators` | rule_logic.go:40-56 | the pop loop moves the stacked operators that do not rank below the incoming token to the output, last pushed first, and stops at the first one that does (equal to `PopWhile`) |
| `RuleLogic.ConvertToPostfix` | rule_logic.go:23-75 | the conversion loop and the final dump produce the postfix sequence `ToPostfix`, including the error for an unmatched `)` that empties the stack (panic) |
| `RuleLogic.EvaluatePostfix` | rule_logic.go:77-132 | the counting loop computes `EvalRun`: ids are looked up, operators pop their operand count, a missing id, an unparsable number or a stack underflow give the source's error or panic |
| `RuleLogic.CalculateExpression` | rule_logic.go:11-139 | splits on single spaces, converts, evaluates, and returns the top of the value stack, or a panic when that stack is empty (equal to `Calculate`) |
| `RuleLogic.RunAppend` | rule_logic.go:23-65 | converting `a + b` is converting `a` and then continuing with `b` from the resulting stacks |
| `RuleLogic.EvalRunAppend` | rule_logic.go:77-132 | evaluating `a + b` is evaluating `a` and then continuing with `b` from the resulting value stack |
| `RuleLogicEdges.OperatorTable` | rule_logic.go:141-168 | `isOpBiggerInLogic` is false for an empty token and true over an empty stack top; the order is `not` > `and` > `or` > `)` > `(` and is strict; `and`/`or` take two operands, `not` one, brackets none; `computeOneInLogic` is `||`, `&&`, `!`, and an error for any other operator |
| `RuleLogicEdges.MissingId` | rule_logic.go:90-94 | an id that is not in the value map yields the error "empty operand value in map: " followed by the id |
| `RuleLogicEdges.EmptyToken` | rule_logic.go:85-89 | the empty expression splits into one empty token, which matches `^\d*$` and fails `strconv.Atoi` |
| `RuleLogicEdges.UnmatchedOpen` | rule_logic.go:67-75 | an unclosed `(` is dumped into the postfix and ignored, so `( n` evaluates to the value of `n` |
| `RuleLogicEdges.SurplusOperands` | rule_logic.go:77-138 | surplus operands are not reported: `m n` evaluates to the value of `n` |
| `RuleLogicEdges.OperandUnderflow` | rule_logic.go:98-110 | a binary operator without two operands (`and n`) dereferences an empty list: a panic |
| `RuleLogicEdges.UnmatchedClose` | rule_logic.go:40-59 | a `)` without a matching `(` removes the back of an empty operator list: a panic |
| `RuleLogicEdges.DoubleNot` | rule_logic.go:37-123 | `not not n` panics, because the second `not` does not outrank the first, pops it, and it then finds no operand |
| `RuleLogicEdges.BracketedId` | rule_logic.go:37-62 | `a and ( b ) or c` evaluates to `a && (b \|\| c)`, which differs from `(a && b) \|\| c` whenever `a` is false and `c` is true |
| `RuleLogicProof.PostfixOfRender` | rule_logic.go:23-75 | the tokens of any well-formed expression convert to its standard postfix form |
| `RuleLogicProof.CalculateWritten` | rule_logic.go:11-139 | on the normalised text of any well-bracketed expression whose ids all have values (redundant pairs around `and`, `or` and `not` included), the stack evaluator returns the standard value of the expression (`not` > `and` > `or`) |
| `TreeProof.ByTreeWritten` | tree.go:17-35 | on the normalised text of any well-bracketed expression that is not one bracket pair as a whole, whose ids all have values, the tree evaluator returns the standard value, at most one blamed id, none when the verdict is true, and only ids of the expression whose leaf diverges from what it should be |
| `TreeProof.EvaluatorsAgree` | tree.go:17-35 | the tree evaluator and the stack evaluator return the same verdict on the normalised text of any well-bracketed expression that is not one bracket pair as a whole |
| `TreeProof.TreeOfWritten` | tree.go:40-52 | the tree built from the normalised text of a well-bracketed expression, not bracketed as a whole, has one node per sub-expression (a kept bracket pair adds none), and chained `and`/`or` become one node with several children |
| `TreeProof.CalcShape` | tree.go:57-97 | the post-order pass over that tree computes at every node the value of its sub-expression, without error |
| `TreeEdges.WorkedCheck` | tree.go:17-35 | `( 1 and ( ( 2 and 3 ) or ( 2 and 4 and 5 ) or not 2 ) ) or not 1` with 1, 2 true and 3, 4, 5 false is false by both evaluators, and the tree evaluator blames rule 3 |
| `TreeEdges.WholeGroupPanics` | tree.go:151-173 | a text that is one bracket pair as a whole elides to a single key with no operator, so the root has no children and the tree evaluator panics |
| `TreeEdges.WholeGroupDisagree` | tree.go:17-35 | on such a text the tree evaluator panics while the stack evaluator returns the value of the bracketed expression |
| `TreeEdges.BracketedPair` | tree.go:17-35 | `( 1 or 2 )`: the tree evaluator panics, the stack evaluator returns `v1 \|\| v2` |
| `TreeEdges.DoubleNotPanics` | tree.go:151-173 | `not not n` splits on `not ` into an empty child, which has no children, so the tree evaluator panics; the stack evaluator panics too |
| `TreeProof.BlameDone` | tree.go:102-133 | the search over an evaluated canonical tree succeeds and returns at most one id, taken from a leaf that diverges from its expected value |
| `Tree.ReplaceBiggestBracketContentAtOnce` | tree.go:243-276 | one left-to-right scan replaces the first outermost bracket block by a fresh placeholder key and records the trimmed inside; a `)` with no open bracket slices an empty slice (panic) (equal to `AtOnce`) |
| `Tree.AtOnceShrinks` | tree.go:229-241 | each replacing pass removes at least one `(`, so the elision loop ends |
| `Tree.ReplaceBiggestBracketContent` | tree.go:229-241 | repeats the pass until the text no longer changes (equal to `Elide`) |
| `TreeFacts.ElideBalanced` | tree.go:229-276 | on balanced text the elision succeeds and leaves no bracket at all |
| `TreeFacts.AtOnceWithoutOpen` | tree.go:250-266 | text with no `(` is returned unchanged when it has no `)`, and panics when it has one |
| `Canonical.ElideWritten` | tree.go:229-276 | eliding canonical text leaves its top-level items with each bracketed group replaced by a key, and records the groups' texts in order |
| `Tree.ShipChildren` | tree.go:175-220 | each piece becomes a fresh child with its keys expanded back to the recorded texts; it should be true under `and`/`or` and false under `not`; blame passes to every child of `and` and `not` but only to the first child of `or` (equal to `Ship`) |
| `TreeFacts.ShipShipped` | tree.go:175-220 | the shipped children all have the role their parent's operator gives them |
| `Tree.SplitExprToChildren` | tree.go:151-173 | splits on ` or ` first, then on ` and `, then on a leading `not `, and leaves an atom without children (equal to `SplitExpr`) |
| `Chains.SplitWritten` | tree.go:151-173 | the children found for a canonical text are exactly the operands of its outermost operator, each written canonically |
| `Tree.PropagateTree` | tree.go:139-149 | expands every non-leaf node recursively, within the fuel given (equal to `Propagate`) |
| `Tree.PropagateChildren` | tree.go:146-148 | expanding the children one by one gives the expansion of the whole list, or the first panic among them (equal to `PropagateAll`) |
| `TreeFacts.PropagateRoles` | tree.go:139-220 | every node of a built tree has the should/blamed roles its parent's operator gives it |
| `Tree.LogicToTree` | tree.go:40-52 | an empty or single-space text gives a nil head; otherwise the root should be true, is blamed and is expanded (equal to `TreeOf`) |
| `TreeFacts.TreeRoot` | tree.go:40-52 | the head is nil exactly for "" and " "; otherwise it carries the whole text, should be true, is blamed, is uncomputed and is a leaf exactly when the text is |
| `Tree.TraverseForCalculate` | tree.go:57-97 | the post-order pass: leaves look up their id, `not` negates its child, `and`/`or` fold their children; unknown ids and parse errors are reported while the errors of children are dropped, and a childless non-leaf panics (equal to `Calc`) |
| `Tree.FinishNode` | tree.go:66-96 | the work on a node after its children: a leaf's id is parsed and looked up, `not` negates the first child, `and`/`or` fold every child starting from the first, and an error stops the fold (equal to `Finish`, whose effect on the node `TreeFacts.FinishKeeps` bounds) |
| `Tree.CalcAllFails` | tree.go:58-63 | a panic in one child ends the pass over the siblings after it |
| `Tree.FoldFails` | tree.go:84-92 | an error in the fold over the children ends it |
| `TreeFacts.CalcRoles` | tree.go:57-97 | evaluation keeps every node's text, roles, operator and number of children |
| `TreeFacts.FinishKeeps` | tree.go:66-96 | the work on a node after its children changes at most its value and its computed flag: text, roles, leaf flag, operator and children stay |
| `TreeFacts.CalcMeaning` | tree.go:57-97 | after a clean pass, every leaf holds its id's value and every inner node holds the `and`/`or`/`not` of its children's values |
| `TreeFacts.FoldAnd` | tree.go:75-93 | folding `and` gives the conjunction of the children's values |
| `TreeFacts.FoldOr` | tree.go:75-93 | folding `or` gives the disjunction of the children's values |
| `Tree.NextShrinks` | tree.go:112-130 | each step of the breadth-first search makes the remaining queue smaller, so the search ends |
| `Tree.FindFailRule` | tree.go:102-133 | the breadth-first search returns the id of the first blamed leaf whose value differs from what it should be, or no id (equal to `Blame`) |
| `TreeFacts.BlameSound` | tree.go:102-137 | any id returned is unique and is the parsed text of a leaf of the tree that is blamed and diverges from its expected value |
| `TreeFacts.ByTreeBlame` | tree.go:17-35 | a true verdict blames nothing; a false one blames at most one leaf of the evaluated tree, and that leaf diverges |
| `Tree.CalculateExpressionByTree` | tree.go:17-35 | builds, evaluates and searches; a nil head panics, and an uncomputed root gives "didn't count out yet" (equal to `ByTree`) |
| `TreeFacts.SplitShipped` | tree.go:151-173 | a split that succeeds yields children in the roles of `and`, `or` or `not` |
| `CoreFormat.FormatLogicExpression` | core.go:316-360 | lower-cases, spaces out runs of different character classes and each bracket, collapses runs of spaces, and trims (equal to `Format(raw, true)`) |
| `CoreFormat.InsertSpaces` | core.go:319-337 | a space goes before each character whose class differs from the previous one, and between two brackets |
| `CoreFormat.CollapseSpaces` | core.go:338-357 | runs of spaces collapse into one |
| `CoreFormat.FormatShape` | core.go:316-360 | the normalised text has no space at either end, no two spaces in a row, and a space between any two adjacent characters of different classes |
| `CoreFormat.FormatContent` | core.go:316-360 | with spaces removed, the normalised text is the lower-cased input with spaces removed: nothing is lost, added or reordered |
| `CoreFormat.FormatIdempotent` | core.go:316-360 | normalising normalised text changes nothing, in the current and in the older bracket mode |
| `CoreFormat.FormatOfSpaces` | core.go:316-360 | a text of spaces normalises to the empty text |
| `CoreCheck.AllValidSymbols` | core.go:362-392 | true exactly when every token is a number or one of `and`, `or`, `not`, `(`, `)` |
| `CoreCheck.AllIdsExist` | core.go:394-416 | true exactly when every numeric token is the decimal text of an existing rule id |
| `CoreCheck.TryProbe` | core.go:418-445 | draws a value for every numeric token and evaluates the text once; reports the evaluator's error or panic (equal to `Probe`) |
| `CoreCheck.ProbeCovers` | core.go:426-437 | when every numeric token parses, the probe map has an entry for every id of the text |
| `CoreCheck.WrittenTokens` | core.go:316-360 | the canonical text splits on spaces into exactly its tokens |
| `CoreCheck.WrittenSymbolsValid` | core.go:362-392 | canonical text passes the symbol check |
| `CoreCheck.WrittenIdsExist` | core.go:394-416 | canonical text passes the id check exactly when every id of the expression is a rule id |
| `CoreCheck.WrittenProbeSucceeds` | core.go:418-445 | canonical text passes the probe whatever values are drawn |
| `Core.Rules.constructor` | bean.go:11-16 | a new group holds its rules and an empty logic, name and message |
| `Core.NewRulesWithArray` | core.go:82-99 | rewrites the array in place so that each rule with id 0 gets the next id above the largest id present, counting up with 64-bit wrap-around, and returns a group over the rewritten rules |
| `Core.LargestId` | core.go:84-89 | the first loop returns the scan of the ids from 1 (`MaxIdFrom`), which `Core.MaxIdBounds` shows to be the largest id present, or 1 |
| `Core.NumberFrom` | core.go:90-96 | the second loop rewrites the array in place into the numbering `Assign` of its old contents, whose shape `Core.AssignShape` states |
| `Core.MaxIdBounds` | core.go:84-89 | the scan finds an upper bound of every id that is either the start value or an id present |
| `Core.AssignShape` | core.go:90-96 | numbered rules keep their ids; the k-th unnumbered rule gets the start value plus k |
| `Core.AssignIdsProperties` | core.go:82-99 | after assignment no rule has id 0, numbered rules are unchanged, each unnumbered rule's new id is above the old maximum, and no assigned id equals any other rule's id |
| `Core.InjectLogic` | core.go:14-40 | normalises the text; a blank result leaves the group unchanged and succeeds; otherwise the symbol check, the probe and the id check must pass in that order, with their own error messages, before the normalised text is stored |
| `Core.InjectBlank` | core.go:16-19 | a text of spaces is accepted and sets no logic |
| `Core.InjectCommits` | core.go:14-40 | the logic is stored exactly when the normalised text is non-empty and passes all three checks, and what is stored is the normalised text |
| `Core.InjectCanonical` | core.go:14-40 | any text that normalises to the normalised text of a well-bracketed expression over existing ids is accepted and stored in that form |
| `Core.InjectSurplus` | core.go:14-40 | `1 2`, two ids with no operator, passes the symbol check, the probe and the id check over ids 1 and 2, and is stored |
| `Core.InjectExtractInfo` | core.go:42-50 | copies "name" and "msg" from the info map when present and changes nothing else |
| `Core.FitWithMapInFact` | core.go:120-161 | without logic the verdict is the conjunction of the outcomes, with tips only when false; with logic it is the evaluator's value, false without tips on an evaluator error; an uncomparable value aborts with false and nil maps (equal to `FitInFact`) |
| `Core.CollectRules` | core.go:128-145 | the loop over the rules records outcome, plucked value and, for a failing rule, its message, and stops on a clash (equal to `Collect`) |
| `Core.Any` | core.go:148 | picks some key of a non-empty map: the order of Go's map iteration is unspecified |
| `Core.ClashAborts` | core.go:130-135 | one rule whose plucked or expected value is uncomparable aborts the whole group |
| `Core.CollectAt` | core.go:137-144 | with distinct ids and no clash, each rule's outcome, plucked value and failure message are recorded under its id |
| `Core.DuplicateIdOverwrites` | core.go:128-153 | of two rules with the same id, without logic, the later one's outcome and value overwrite the earlier one's: a failing rule followed by a holding one fits with nil tips, the reverse order does not fit and tips the failing rule |
| `Core.CollectOnly` | core.go:128-145 | only the rules' ids are recorded, and tips only for rules that fail |
| `Core.FitWithoutLogic` | core.go:147-153 | with no logic the group fits exactly when every rule holds; then tips are nil, otherwise they name exactly the failing rules with their messages |
| `Core.FitWithLogic` | core.go:154-160 | with logic the verdict is the stack evaluator's value over the outcomes, and an evaluator error gives false with nil tips |
| `Core.FitCanonicalLogic` | core.go:120-161 | with canonical logic over the group's ids, the verdict is the standard value of the expression over the rules' outcomes |
| `CoreValues.Pluck` | core.go:258-275 | splits the key on dots and descends through nested maps; a missing key or a non-map step gives nil (equal to `PluckSpec`) |
| `CoreValues.PluckSingle` | core.go:258-275 | a key without dots is a plain lookup |
| `CoreValues.PluckNested` | core.go:258-275 | `a.rest` looks up `a` and continues with `rest` inside it, or gives nil |
| `CoreValues.StrLessTrichotomy` | core.go:163-256 | Go's byte-wise string order is a strict total order: exactly one of less, equal, greater |
| `CoreValues.StrLessTransitive` | core.go:163-256 | Go's string order is transitive |
| `CoreValues.FitMixedTypes` | core.go:165-172 | a rule never holds when exactly one of the value and the expected value is a string |
| `CoreValues.FitOrdering` | core.go:174-256 | for values of the same kind, exactly one of `<`, `=`, `>` holds |
| `CoreValues.FitNegations` | core.go:174-256 | for values of the same kind, `!=`, `>=`, `<=`, `!contain` and `!empty` are the negations of `=`, `<`, `>`, `contain` and `empty` |
| `CoreSet.RulesSet.constructor` | bean.go:18-22 | a new set holds its groups, name and message |
| `CoreSet.NewRulesSet` | core.go:55-69 | takes name and message from the info map, and names every unnamed group by its position from 1 while keeping given names |
| `CoreSet.NameGroups` | core.go:60-66 | every group ends up with a non-empty name, and nothing else about the groups changes |
| `CoreSet.FirstIndex` | core.go:60-66 | the position of a group is its first occurrence in the set |
| `CoreSet.FitSetWithMap` | core.go:106-118 | the names of the groups that fit, in order, or nil when none does; a panic of any group's evaluation propagates |
| `CoreSet.FitNamesMembers` | core.go:106-118 | without panics, a name is reported exactly when some group with that name fits, and no more names than groups |
| `CoreSet.FitNamesFirstPanic` | core.go:106-118 | the first group whose evaluation panics decides the outcome |
| `Broker.NewRulesWithArrayAndLogic` | broker.go:50-62 | assigns ids in place; empty logic gives a group without logic; otherwise the logic is injected and its error is returned |
| `Broker.NewRulesWithArrayAndLogicAndInfo` | broker.go:19-25 | as above, then copies name and message from the info map |
| `Broker.FitWithMap` | broker.go:75-78 | the verdict and tips of `fitWithMapInFact`, without the values |
| `Broker.FitWithMapAskVal` | broker.go:91-93 | the verdict, tips and plucked values of `fitWithMapInFact` |
| `Broker.BuiltGroupVerdict` | broker.go:50-78 | a group built from logic that normalises to canonical text over assigned ids is accepted, stores the canonical text, and its verdict is the standard value of the expression over the rules' outcomes |
| `LegacyCore.FormatLogicExpression` | rule_core.go:352-396 | the older normaliser spaces out only runs of different character classes, so adjacent brackets stay glued (equal to `Format(raw, false)`) |
| `LegacyCore.InjectLogic` | rule_core.go:14-37 | the older injection has no shortcut for blank text: symbol check, probe and id check always run |
| `LegacyCore.BlankRejected` | rule_core.go:14-37 | a blank text is rejected by the older injection with "can not calculate" |
| `LegacyCore.GluedBrackets` | rule_core.go:352-428 | `((` stays glued in the older normaliser, is split by the current one, and is rejected by the older symbol check |
| `LegacyCore.InjectCanonical` | rule_core.go:14-37 | the older injection accepts any text that normalises to canonical text over existing ids |
| `LegacyCore.NewRulesWithArray` | rule_core.go:135-152 | same id assignment as the current version |
| `LegacyCore.NewRulesWithArrayAndLogic` | rule_core.go:110-122 | assigns ids and injects with the older injection |
| `LegacyCore.NewRulesSet` | rule_core.go:49-63 | same naming as the current version |
| `LegacyCore.FitWithMap` | rule_core.go:159-197 | the same verdict as the current `fitWithMapInFact`; without logic a true verdict has nil tips |
| `Text.SplitJoinSpace` | rule_logic.go:12 | splitting text joined with single spaces gives back the space-free tokens |
| `Text.AtoiItoa` | rule_logic.go:86 | parsing the decimal text of an id in the 64-bit range gives back the id |
| `Text.ItoaInjective` | core.go:395-413 | two ids with the same decimal text are equal |

## Left out

- Go's `regexp` package: the `@`, `regex` and `contain` operators take an uninterpreted matcher
  parameter. The number-token pattern `^\d*$` is modelled exactly as `AllDigits`.
- Floating point: numbers are Dafny `real`, and `formatNumber`'s conversions through
  `strconv.ParseFloat` and friends are abstract (`FormatNumber`).
- Reflection: value kinds are the datatype `Value`, and "comparable" means not a map and not a
  list.
- The random probe (core.go:426-437) draws its values from a `draw` parameter instead of
  `math/rand`; the theorems quantify over every `draw`.
- `strings.ToLower` covers ASCII letters only.
- The `uuid` placeholder keys in tree.go:271 are modelled as `#<n>#`. The results about
  canonical text hold because canonical text contains no `#`.
- Go map iteration order in `shipChildren` (tree.go:183) is modelled as key order. Recorded
  texts contain no keys, so the order does not change the result on canonical text; this is
  not proved for arbitrary text.
- `Tree.PropagateTree`: recursion is bounded by a fuel equal to the text's length. The proof
  that this fuel suffices covers canonical text only (`TreeProof.TreeOfWritten`).
- `Core.AssignIdsProperties`: proved only when no id passes the 64-bit maximum. `Inc`
  models the wrap-around itself.
- Rules are held by value: the sharing of `*Rule` pointers between the caller's array and the
  group is not modelled beyond the in-place update of the array.
- The JSON constructors (`NewRulesWithJson…`), `Fit`, `FitAskVal` and `FitSet` (which go
  through `structs.Map` on a Go struct) are outside the model.
- rule_core.go's `NewRulesWithArrayAndLogicAndInfo` (rule_core.go:79-85), `fit`, `pluck`,
  `formatNumber` and the validators are not modelled separately. Apart from the normaliser's
  bracket test (rule_core.go:367) they are the same code as core.go, so `LegacyCore` reuses
  the current modules.
- `RuleLogic.CalculateExpression`: type assertions on stack elements cannot fail in the model,
  because the stacks are typed, so the "error type of operator" paths do not occur.
- `RuleLogicProof.CalculateWritten`: nothing is promised for a bracketed lone id or a doubled
  bracket pair, which lie outside well-bracketed formulas; the stack evaluator mis-evaluates
  both inside a larger expression, because the inner `)` outranks `(` and is pushed instead of
  matched (`RuleLogicEdges.BracketedId` proves this for the lone id; the doubled pair, as in
  `1 and ( ( 2 or 3 ) ) or 4`, goes the same way and is not proved separately).
- `TreeProof.ByTreeWritten`: nothing is promised for a text that is one bracket pair as a
  whole (it panics, `TreeEdges.WholeGroupPanics`), a bracketed lone id, a doubled bracket
  pair or `not not n` (it panics, `TreeEdges.DoubleNotPanics`).
- `TreeProof.EvaluatorsAgree`: not promised on the same texts; on a whole-text bracket pair
  the evaluators disagree (`TreeEdges.WholeGroupDisagree`).
- `Core.CollectAt`, `Core.FitWithoutLogic`, `Core.FitWithLogic`, `Core.FitCanonicalLogic` and
  `Broker.BuiltGroupVerdict` require distinct rule ids, which the source does not enforce; with
  a repeated id the later rule overwrites the earlier (`Core.DuplicateIdOverwrites`).
- `Core.Any`: the early exit of the loop over a Go map is modelled by picking an arbitrary
  key, so the contract says only that the key is present.
