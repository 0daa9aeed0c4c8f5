# PyMaTex core in Dafny

PyMaTex checks proofs of algebraic identities written as plain strings. There is no
syntax tree. A theorem is a one-`=` conclusion over single-letter unknowns. It may
carry simplifications (a letter defined by an arithmetic expression) and an optional
proof. A proof starts from one equality. Each step then either rewrites one
occurrence of a side of a proven theorem (`evolve_equality`) or uses one of the
theorem's own simplifications (`use_simplification`). `conclude` closes the proof once
both sides of the conclusion have been reached. Constructing a theorem runs a fixed
sequence of checks, and each check raises its own error.

This project models that core:

- **TextGestion**: the string toolkit of `text_gestion.py`.
  - Space removal.
  - The character-class automaton behind `verify_maths`.
  - The precedence measure and the substitution-boundary gate.
  - The one-modification diff.
  - Simultaneous substitution.
  - Unknown extraction.
  - The small list helpers.
- **Theorems**: theorem values, `is_held`, `is_proven` and `is_axiom`, the name and
  bound-letter checks, and the parameter and substitution part of the `Equality`
  constructor (`theorem.py`).
- **Proofs**: the append-only proof state of `proof.py`.
  - Each operation is specified by a pure step function on a `ProofRecord`.
  - Each operation is also implemented by the `Proof` class, whose methods are proved
    against those functions.
- **Construction**: construction of a theorem variant from its declaration.
  - `Instantiate` is the pure function; `Construct` is the method proved equal to it.
  - A proof script is a list of `Evolve`/`Simplify`/`Conclude` steps. An evolve step
    constructs the variant it cites, which is found in a registry.
  - Python's recursion limit becomes a `fuel` bound. Running out of fuel at a
    proof-carrying theorem is `TheoremRecursion`.
- **TheoremSet**: every class of `theorem_set.py` declared as data. The replay modules
  (`ReplayHeaders`, `*Replay`, `Replays`) run seven proof scripts step by step.
- **Hijacks**: the four attacks of `hijacks.py`, each refused with the error the
  program raises.
- **LatexGestion**: the pure helpers of `latex_gestion.py`: `format_day`,
  `concatenate_lines`, `write_as_list` and `convert_2_latex`.

Where the code and the design notes of the program disagree, the model follows the
code:

- The automaton's table forbids an operator right after the start of an expression
  (`allowed[0][3]` is False).
- `evolve_equality` does not refuse a step after `conclude`.
- The test `if param_list is None` at theorem.py:281 can never hold, because
  `param_list` is rebound at line 269. So the model always takes the substitution
  branch.

## Model

| member | source | states |
|---|---|---|
| TextGestion.RemoveSpacesIdempotent | text_gestion.py:35-39 | removing spaces twice is the same as removing them once |
| TextGestion.RemoveSpacesKeepsOthers | text_gestion.py:35-39 | the result holds every non-space character of the input as often as the input does, and no space |
| TextGestion.RemoveSpacesAppend | text_gestion.py:35-39 | space removal distributes over concatenation, so the kept characters stay in order |
| TextGestion.RemoveSpaces | text_gestion.py:35-39 | the result has no space and is no longer than the input |
| TextGestion.FullConcatenate | text_gestion.py:24-32 | the loop builds the concatenation of the list, whose length is the sum of the lengths |
| TextGestion.ConcatLength | text_gestion.py:24-32 | the length of a concatenation is the sum of the lengths of its parts |
| TextGestion.SplitJoin | text_gestion.py:42-51 | joining the pieces of `str.split` with the separator gives the text back |
| TextGestion.SplitPiecesAvoidSeparator | text_gestion.py:42-51 | no piece of a split contains the separator |
| TextGestion.SplitList | text_gestion.py:42-51 | the loop returns the pieces of every element split in turn, with at least one piece per element |
| TextGestion.SplitAllJoin | text_gestion.py:42-51 | every element of the list is the join of its own pieces |
| TextGestion.ComputeFirstOrderOperation | text_gestion.py:54-78 | the loop returns the order seen first from the chosen side |
| TextGestion.FirstOrderCounts | text_gestion.py:54-78 | from the left, the order is 3 × (opened minus closed parentheses before the first `+`, `*` or `^`) plus that operator's priority, or the parenthesis term alone when there is no operator |
| TextGestion.FirstOrderRightToLeft | text_gestion.py:54-78 | reading from the right equals reading from the left on the reversed text with its parentheses swapped |
| TextGestion.PlusNeighboursAccept | text_gestion.py:81-126 | a parenthesis-free centre between `+` neighbours (or the ends) is always accepted |
| TextGestion.PowerRejectsLooserCenter | text_gestion.py:81-126 | a parenthesis-free centre whose first operator is looser than `^` is refused after a `^` |
| TextGestion.VerifyOrderDocumentedExample | text_gestion.py:81-126 | the documented example ("a +", "b*c", "^d") is refused; "+d" and a centre enclosed by "(" and ")" are accepted |
| TextGestion.CharacterCode | text_gestion.py:242-264 | the code is 1 to 5 exactly for digits, letters, operators, `(` and `)` (ASCII digits only), and None otherwise |
| TextGestion.VerifyMaths | text_gestion.py:267-301 | the loop accepts iff the parenthesis counts agree and every consecutive class pair of the space-free text, from the start class to the end, is allowed |
| TextGestion.WellFormedIff | text_gestion.py:242-301 | the automaton accepts exactly the balanced texts whose adjacent class pairs are all allowed |
| TextGestion.WellFormedEmpty | text_gestion.py:283-301 | the empty text is accepted |
| TextGestion.WellFormedShape | text_gestion.py:242-264 | an accepted text neither starts nor ends with an operator, does not start with `)` or end with `(`, and each class is followed only by the classes the table allows |
| TextGestion.UnbalancedRefused | text_gestion.py:277-278 | different counts of `(` and `)` are refused |
| TextGestion.CountsNotNesting | text_gestion.py:277-278 | only counts are compared: "a)+(b" is accepted |
| TextGestion.ImpossibleCharacterRefused | text_gestion.py:283-301 | the sentinel text is refused |
| TextGestion.ExtractUnknowns | text_gestion.py:304-312 | the loop returns the distinct letters of the space-free text, each once, in order of first appearance |
| TextGestion.UnknownsSpec | text_gestion.py:304-312 | the unknowns are distinct and are exactly the letters of the text |
| TextGestion.UpperCaseFirstLetter | text_gestion.py:190-196 | only the first character changes, and only a lower-case ASCII letter, to its capital |
| TextGestion.ReplaceUsingDict | text_gestion.py:160-187 | the two passes give the simultaneous substitution of the dictionary's keys |
| TextGestion.ExpandedAllIsSubstitute | text_gestion.py:160-187 | once every key is marked and expanded, no placeholder is left and the text is the simultaneous substitution |
| TextGestion.SubstituteSwaps | text_gestion.py:160-187 | inserted text is never substituted again: {a: b, b: a} turns "a+b" into "b+a" |
| TextGestion.SubstituteWithoutKeys | text_gestion.py:160-187 | a text with no key is left unchanged |
| TextGestion.OnlyOneModification | text_gestion.py:129-157 | the loop decides exactly the single-modification relation: the first occurrence whose splice gives the new text, with its precedence verdict |
| TextGestion.SingleModificationSound | text_gestion.py:129-157 | when it holds, old = L + lhs + R and new = L + rhs + R at an occurrence of lhs, and the replacement passes the order check there |
| TextGestion.SingleModificationNeedsOccurrence | text_gestion.py:141-157 | it fails when lhs does not occur in the old text |
| TextGestion.SingleModificationNeedsOneEquality | text_gestion.py:137-139 | it fails unless the modification splits on `=` into exactly two parts |
| TextGestion.FirstSpliceAt | text_gestion.py:143-156 | the first occurrence whose splice reproduces the new text is the one chosen; later ones are never tried |
| TextGestion.EvaluateNatToString | text_gestion.py:199-208 | the integer evaluator reads back the decimal text of a number |
| TextGestion.SplitEq | theorem.py:274 | an equation with no other `=` splits into its two sides |
| Theorems.CheckNames | theorem.py:174-188 | the loops accept iff every unknown and every simplification name is one ASCII letter |
| Theorems.FirstUnboundIn | theorem.py:237-245 | None iff every letter is bound; otherwise the first unbound letter in order |
| Theorems.FirstUnbound | theorem.py:225-245 | None iff every letter of the expression is an unknown or a simplification name; otherwise an unbound letter of it |
| Theorems.VerifyHasInstantiatedEveryCharacter | theorem.py:237-245 | the loop returns the first letter that is not bound |
| Theorems.IsHeldEq | theorem.py:324-335 | an equality is held iff both sides of the theorem are among its two parts |
| Theorems.IsHeldSymmetric | theorem.py:324-335 | orientation does not matter |
| Theorems.Parameters | theorem.py:268-272 | None becomes "0" per unknown; a list of the wrong length is `NotRightNumberOfParameters(required, given)` |
| Theorems.BindSimplifications | theorem.py:289-297 | the only error is `NotANumber`; every earlier binding and every simplification name is bound afterwards |
| Theorems.BindSimplificationsOk | theorem.py:289-297 | resolving the simplifications succeeds iff each one, in declared order, evaluates to a number under the dictionary the earlier ones leave |
| Theorems.BindSimplificationsStep | theorem.py:289-297 | one more simplification: a failing evaluation gives `NotANumber`, otherwise its letter is bound to the decimal text of the number |
| Theorems.BindSimplificationsImage | theorem.py:289-297 | in the final dictionary, a simplification's letter that no later one rebinds holds the decimal text of the value its expression evaluates to under the bindings made before it |
| Theorems.BuildReplacements | theorem.py:285-297 | the loops build the dictionary of the bindings function |
| Theorems.BindUnknownsImage | theorem.py:285-287 | each unknown is bound to its parameter without spaces |
| Theorems.CheckReplacementOrder | theorem.py:302-316 | the nested loops accept iff, in both sides, every occurrence of every bound value passes the order check against its neighbouring chunks |
| Theorems.AbsentValueOrderOk | theorem.py:302-316 | a value that does not occur raises nothing |
| Theorems.SingleCharacterValueOrderOk | theorem.py:302-316 | a one-character value always passes |
| Theorems.SimpleValuesOrderOk | theorem.py:302-316 | a dictionary of one-character values always passes |
| Theorems.InstantiateSidesOk | theorem.py:266-322 | on success both symbolic sides are well formed, and the sides are the simultaneous substitutions, well formed and order-safe |
| Theorems.InstantiateSidesCount | theorem.py:270-272 | a parameter list of the wrong length gives `NotRightNumberOfParameters` |
| Theorems.InstantiateSidesSymbolic | theorem.py:278-279 | an ill-formed symbolic side gives `EqualitySideNotOkForMaths` |
| Theorems.InstantiateSidesOrderError | theorem.py:302-316 | when the left or the right substituted side fails the order check, the constructor gives `BadOperationOrderInReplacement` |
| Proofs.StartRecord | proof.py:116-150 | a starting equality with an unbound letter is `NonExistingUnknown` of it; otherwise equalities = [start without spaces], no dependencies, not finished, aim = conclusion split on `=` |
| Proofs.OldEquality | proof.py:155-164 | the first stored equality, in insertion order, that the new one modifies once; None iff there is none |
| Proofs.OldEqualityAt | proof.py:155-164 | the first match is the one returned |
| Proofs.EvolveRecord | proof.py:166-213 | errors in the order of the code: not proven, not held, unbound letter, no old equality; success iff all checks pass, appending only the new equality and the cited theorem |
| Proofs.EvolveIsOneRewrite | proof.py:166-199 | a successful evolve rewrites one occurrence of one side of the cited theorem in an earlier equality into the other side |
| Proofs.EvolveExtends | proof.py:184-199 | a successful evolve grows equalities by one, keeps the first equality and appends exactly the cited theorem |
| Proofs.SimplifyRecord | proof.py:215-249 | the only error is `WrongSimplification`; success iff two parts, a declared simplification whose name and expression are both among them, and an old equality; dependencies unchanged |
| Proofs.SimplifyExtends | proof.py:215-243 | a successful simplification grows equalities by one, keeps the first equality and leaves the dependencies |
| Proofs.ConcludeRecord | proof.py:251-265 | success iff already finished or both sides of the aim are stored; `CannotConclude` otherwise; only the flag changes |
| Proofs.ConcludeIdempotent | proof.py:257-265 | concluding a concluded proof changes nothing |
| Proofs.ConcludeReachesAim | proof.py:257-265 | a fresh conclusion keeps the equalities, which hold both sides of the aim |
| Proofs.Proof.FindOldEquality | proof.py:155-164 | the search loop returns the stored equality the specification selects, or None exactly when it selects none |
| Proofs.Proof.constructor | proof.py:116-153 | the new proof's state is the start record |
| Proofs.Proof.EvolveEquality | proof.py:166-213 | the state becomes the evolve record on success and is unchanged on error, which is returned |
| Proofs.Proof.UseSimplification | proof.py:215-249 | the state becomes the simplification record on success and is unchanged on error |
| Proofs.Proof.Conclude | proof.py:251-265 | the state becomes the concluded record on success; the aim, equalities and dependencies never change |
| Construction.Construct | theorem.py:160-322 | the constructor, which builds the proof before the parameters are looked at, returns the same result as the construction function |
| Construction.GetProof | theorem.py:198-203 | building the proof script step by step on a `Proof` gives the proof-building function's result |
| Construction.RunScript | theorem_set.py:79-100 | running the steps on a `Proof` object reaches the record of the pure run, or returns its error |
| Construction.ApplyStep | proof.py:166-265 | one step on a `Proof` object reaches the record of the pure step, or returns its error |
| Construction.ConstructedProof | theorem.py:198-223 | a constructed theorem's proof starts from its script's start, cites only proven theorems, aims at its symbolic conclusion, and holds both sides of it when proven by that proof |
| Construction.ConstructedAxiom | theorem.py:205-223 | a constructed variant without a script is an axiom and proven |
| Construction.ProofIgnoresParameters | theorem.py:198-203 | the proof and header do not depend on the parameters, and a failing proof fails whatever they are |
| Construction.ConstructedSides | theorem.py:266-322 | the sides of a constructed theorem are the instantiated sides: well formed and without spaces |
| Construction.InstantiateFuel | theorem.py:198-203 | a construction that does not hit the depth limit gives the same result with one more level |
| Construction.InstantiateMoreFuel | theorem.py:198-203 | and with any larger depth |
| Construction.RunStepsKeep | proof.py:150-243 | after any run of steps the first equality is the start and the equalities only grow |
| TheoremSet.DeclareReadable | theorem_set.py:15-637 | every declared variant has a one-`=` conclusion and readable steps |
| TheoremSet.AxiomNames | theorem_set.py:15-343 | exactly the seven classes without `get_proof` are declared without a script |
| TheoremSet.AxiomsProven | theorem.py:205-223 | each of those, once constructed, is an axiom and proven |
| Replays.RightDistributivityInstanceRecorded | theorem_set.py:79-100 | the script of RightDistributivity reaches equalities (a+b)\*c, c\*(a+b), c\*a+c\*b, a\*c+c\*b, a\*c+b\*c, citing the four variants in order |
| Replays.RightDistributivityProved | theorem_set.py:67-100 | RightDistributivity(['a','b','c']) is constructed with sides (a+b)\*c and a\*c+b\*c and that finished proof |
| RightDistributivityReplay.RightDistributivityRun3Skipped | theorem_set.py:94-96 | in the last step the earlier equalities do not match; the match is found at a\*c+c\*b |
| RightDistributivityReplay.RightDistributivityRunsFrom0 | theorem_set.py:79-100 | the whole script runs from the start record to the final one |
| Replays.RightMultiplicationByIdentityInstanceRecorded | theorem_set.py:232-245 | the script reaches equalities a\*1, 1\*a, a citing ProductCommutativity then LeftMultiplicationByIdentity |
| Replays.RightMultiplicationByIdentityProved | theorem_set.py:220-245 | RightMultiplicationByIdentity(['a']) is constructed with that finished proof |
| Replays.AdditionOfTwoAndThreeRecorded | theorem_set.py:275-282 | the script goes from a+b to c by the simplification, with no dependency |
| Replays.AdditionProved | theorem_set.py:261-282 | Addition(['2','3']) is constructed with sides 2+3 and 5 and a finished proof |
| AdditionReplay.AdditionRunsFrom0 | theorem_set.py:275-282 | the simplification step and the conclusion run from the start record |
| Replays.ProductOfTwoAndThreeRecorded | theorem_set.py:299-306 | the script goes from a\*b to c by the simplification |
| Replays.ProductProved | theorem_set.py:285-306 | Product(['2','3']) is constructed with sides 2\*3 and 6 and a finished proof |
| Replays.PowerOfTwoAndThreeRecorded | theorem_set.py:323-330 | the script goes from a^b to c by the simplification |
| Replays.PowerProved | theorem_set.py:309-330 | Power(['2','3']) is constructed with sides 2^3 and 8 and a finished proof |
| Replays.SquareDistributionOfXRecorded | theorem_set.py:358-383 | the symbolic proof reaches a^2, a^(2), a^(1+1), a^1\*a^1, a\*a^1, a\*a |
| Replays.SquareDistributionProved | theorem_set.py:346-383 | SquareDistribution(['x']) is constructed with sides x^2 and x\*x and that finished symbolic proof |
| Replays.LitteralAdditionOfTwoThreeXRecorded | theorem_set.py:189-204 | the script mixes simplification and evolve steps and ends at c\*x |
| Replays.LitteralAdditionProved | theorem_set.py:175-204 | LitteralAddition(['2','3','x']) is constructed with sides 2\*x+3\*x and 5\*x (c resolved to 5) and a finished proof |
| Hijacks.InstantiateRenamed | hijacks.py:11-13 | renaming the variants of a registry does not change any construction |
| Hijacks.PowerAfterSumRefused | hijacks.py:33-35 | a+b before ^2 fails the order check |
| Hijacks.SquareOfSumOutOfOrder | theorem.py:302-316 | substituting a+b for a in a^2 gives a+b^2, whose order check fails |
| Hijacks.SquareOfSumRefused | hijacks.py:30-39 | SquareDistribution(['a + b']) fails with `BadOperationOrderInReplacement` |
| Hijacks.Hijack1Refused | hijacks.py:16-39 | Hijack1 fails with the error of the square it cites |
| Hijacks.Hijack1Fails | hijacks.py:16-39 | Hijack1, constructed among the theorem set, fails with `BadOperationOrderInReplacement` |
| Hijacks.PowerAfterProductRefused | hijacks.py:56-61 | 5\*x before ^2 fails the order check |
| Hijacks.Hijack2Misplaced | hijacks.py:56-61 | no old equality matches: the splice in 2\*x+3\*x^2 puts 5\*x before ^2 |
| Hijacks.Hijack2Evolved | proof.py:166-199 | with the litteral addition cited, the step of Hijack2 fails with `WrongModification` |
| Hijacks.Hijack2Refused | hijacks.py:42-65 | Hijack2 fails with `WrongModification` |
| Hijacks.Hijack2Fails | hijacks.py:42-65 | Hijack2, constructed among the theorem set, fails with `WrongModification` |
| Hijacks.ParenthesizedSumConstructed | hijacks.py:82-87 | RemovalOfParenthesis(['a+b']) constructs |
| Hijacks.Hijack3Misplaced | hijacks.py:82-87 | the step (a+b)^2 to a+b^2 matches no old equality |
| Hijacks.Hijack3Evolved | proof.py:166-199 | with RemovalOfParenthesis(['a+b']) cited, the step fails with `WrongModification` |
| Hijacks.Hijack3Refused | hijacks.py:68-91 | Hijack3 fails with `WrongModification` |
| Hijacks.Hijack3Fails | hijacks.py:68-91 | Hijack3, constructed among the theorem set, fails with `WrongModification` |
| Hijacks.Hijack4Exhausted | theorem.py:198-203 | with no depth left both attacks end in `TheoremRecursion` |
| Hijacks.MutualRecursionRefused | hijacks.py:94-147 | whatever the depth allowed, Hijack4 and Hijack4Bis end in `TheoremRecursion` |
| Hijacks.Hijack4Fails | hijacks.py:94-147 | both attacks, constructed among the theorem set, end in `TheoremRecursion` |
| LatexGestion.FormatDay | latex_gestion.py:17-28 | "st", "nd" and "rd" after the number for last digits 1, 2 and 3, except 11, 12 and 13, and "th" for everything else |
| LatexGestion.FormatDayReadsBack | latex_gestion.py:17-28 | without its two-letter suffix the text reads back as the day |
| LatexGestion.ConcatenateLines | latex_gestion.py:41-52 | the loop returns each line followed by a line break, in order |
| LatexGestion.LinesLength | latex_gestion.py:41-52 | the result has one character per line break more than the total length of the lines |
| LatexGestion.LinesAsJoin | latex_gestion.py:41-52 | the result is the lines joined by line breaks, with a final line break |
| LatexGestion.LinesSplit | latex_gestion.py:41-52 | for lines without line breaks, splitting the result at line breaks returns the lines and an empty last piece |
| LatexGestion.SplitOfJoin | latex_gestion.py:41-52 | splitting a join by a character absent from its parts returns the parts |
| LatexGestion.WriteAsListSpelled | latex_gestion.py:55-68 | [] gives "", [x] gives "$x$", and longer lists give "$x1$", ", $xi$" for each middle element, then " and $xn$" |
| LatexGestion.WriteAsListSeveral | latex_gestion.py:63-67 | the template of two or more fields, formatted, spells out the list |
| LatexGestion.FormatRest | latex_gestion.py:65-67 | the repeated ", ${}$" fields and the last " and ${}$" take the remaining arguments in order |
| LatexGestion.OpenParenthesis | latex_gestion.py:80-83 | every open power's counter goes up by one |
| LatexGestion.CloseParenthesis | latex_gestion.py:84-91 | every counter goes down by one; a counter reaching zero, which can only be the newest, is removed and a "}" is written |
| LatexGestion.AboveNewest | latex_gestion.py:86-91 | only the newest open power can be one parenthesis from closing, so the in-loop removal never skips an entry |
| LatexGestion.RemoveFirstLast | latex_gestion.py:90 | removing the first zero, when it is the last entry, drops the last entry |
| LatexGestion.ConvertCharacter | latex_gestion.py:79-102 | one iteration appends the character's piece and keeps the counters equal to the open parentheses of each open power |
| LatexGestion.Convert2Latex | latex_gestion.py:71-110 | the loop and the two replacements give the character-by-character LaTeX of the text |
| LatexGestion.LatexParensRaw | latex_gestion.py:104-107 | replacing the parentheses after the loop gives the same text as writing \left( and \right) in place |
| LatexGestion.ClosesFromIff | latex_gestion.py:84-100 | a ")" closes a power's brace iff some power opened before it has exactly one parenthesis open just before it |
| LatexGestion.LatexOfPlain | latex_gestion.py:101-102 | letters, digits, `+`, `=` and every character other than ( ) \* ^ are copied unchanged |
| LatexGestion.LatexOfPowerExample | latex_gestion.py:98-100 | "a^(b)" becomes "a^{\left(b\right)}" |
| LatexGestion.LatexOfProductExample | latex_gestion.py:92-97 | "\*" becomes \cdot before a digit and disappears before a letter |

## Left out

- `evaluate_expression` calls Python's `eval`, which can produce floats and run any code. The model reads only natural numbers with `+`, `*`, `^` and parentheses, and fails on anything else.
- TextGestion.Evaluate: differs from `eval` on texts outside that grammar. It reads "02" as 2 where `eval` raises SyntaxError. It refuses `-`, `/`, spaces and decimal points, which `eval` accepts. Every failure becomes `NotANumber`, while the source turns only NameError into NotANumberError (theorem.py:293-296) and lets other exceptions through.
- UpperCaseFirstLetter: covers ASCII letters only. Python's `str.upper` also maps other letters ('é' to 'É', and 'ß' to "SS", which makes the text longer). The requires excludes the empty text, on which `text[0]` raises IndexError.
- `is_number` relies on `int()`, which accepts Unicode digits. The model, `convert_2_latex` included, accepts ASCII digits only.
- `RecursionError` is modelled by the `fuel` bound on the nesting of constructions. The model does not fix the depth at which Python's limit is reached.
- `Construction.Construct` and the replays take the registry of variants as a parameter; they do not model module imports or class lookup. `hijacks.py` reaches the theorem set through a renaming of that registry (`Hijacks.Lift`).
- `str.format` with a sentinel inside `only_one_modification` is replaced by splicing at indices. The two agree because a validated expression holds no braces.
- `replace_using_dict` uses the sentinel `IMPOSSIBLE_CHARACTER` as a text placeholder. The model uses a separate token, so the inserted text can never clash with the placeholder.
- Preconditions the code relies on without checking:
  - a modification with an empty side;
  - an empty parameter (`side.split('')` raises at theorem.py:305);
  - a conclusion without exactly one `=` (the unpacking at theorem.py:274 raises).
- theorem.py:190-194 rewrites the caller's simplification lists in place. The model keeps a copy without spaces.
- The LaTeX text and the random synonyms a `Proof` collects (proof.py:127-153, 201-213, 245-249, 267-275) are not modelled. Building that text can fail, and the model does not reproduce those failures:
  - Proofs.StartRecord and Proofs.Proof.constructor: `convert_2_latex` is applied to the starting equality (proof.py:150). A start ending in `*` or `^`, such as "a+b\*", raises IndexError there; the model gives Ok.
  - Proofs.EvolveRecord and Proofs.Proof.EvolveEquality: `convert_2_latex` is applied to the modification and the step after the appends (proof.py:198-212). For example, citing ProductCommutativity(['a','a']), whose sides are both "a\*a", the modification "a\*a=b^" is held; the source then appends and raises IndexError. The model gives Ok with the appended state, and neither the error nor the partial update before it is modelled.
  - Proofs.SimplifyRecord and Proofs.Proof.UseSimplification: likewise for the text converted after the append (proof.py:243-247).
- These parts of `latex_gestion.py` are not modelled: `get_date` and `init_latex_code` read the clock; `write_to_file` and `end_latex_code` write files and run pdflatex.
- LatexGestion.Convert2Latex: requires that the text does not end with '\*' or '^'. The code raises an IndexError on those inputs, and the model does not produce that error.
- LatexGestion.FormatDay: takes a natural number; negative days are not modelled.
- The replays cover the scripts of RightDistributivity, RightMultiplicationByIdentity, Addition, Product, Power, SquareDistribution and LitteralAddition.
  - The Triple\*, Cube\*, FirstRemarkableIdentity and FirstIdentityWithTwist scripts are declared and shown readable (`TheoremSet.DeclareReadable`).
  - They are not replayed.
- `theorem_group.py` (document assembly, reflection over modules), `synonyms.py` (phrase lists) and `main.py` (a driver script) are not part of this model.
