# Atom explorer: verified model of the ionic formula builder, the quiz and the shell layout

This project models the three pieces of logic in the atom-explorer teaching
site that do more than lay out text:

- **The ionic formula builder** (`src/components/ChemicalFormulae.tsx`), in
  module `ChemicalFormulae` with integer helpers in module `Numbers`. It holds
  the `commonIons` and `exampleCompounds` tables, the cation and anion filters,
  and `calculateFormula`. That operation balances two charge magnitudes through
  the recursive Euclidean `gcd` and the lcm, then builds the formula text one
  part at a time with subscript glyphs from `getSubscript`. It also holds the
  charge label `getChargeDisplay`. The component's state is the class
  `FormulaBuilder`. Its `CalculateFormula` method runs the imperative build in
  `BuildFormula` and is proved equal to the pure `FormulaText`. About that
  function the model proves:
  - charge balance;
  - lowest terms;
  - minimality (every other balance is a multiple);
  - the 1:1 and crossover cases;
  - agreement with the three example compounds;
  - that the formula text reads back as its two symbols and counts.
- **The quiz** (`src/components/InteractiveQuiz.tsx`), in module
  `InteractiveQuiz`. The five state fields are the class `Quiz`. Each handler
  method is proved to perform one transition of the pure state machine
  `QuizState` / `SelectAnswer` / `NextQuestion` / `Reset`. That machine and
  its lemmas are stated for any question table; the class runs it on the
  page's three-question table `QuizQuestions`. Invariants about the machine
  are proved:
  - while questions remain, one answer is recorded per question passed;
  - the score is the number of correct answers;
  - the score never exceeds the number of answers;
  - reset returns to the start.

  The module also covers the score colour, the result message, the per-question
  badges and the running tally.
- **The electron-shell drawing** (`src/components/AtomVisualization.tsx`), in
  module `AtomVisualization`. It holds the `elements` table and the nested loop
  of `renderElectronShells`, written as a method with loop invariants. The loop
  draws one ring per shell at radius `100 + 60 * index` and one marker per
  electron. Its `electronCount` is proved equal both to the markers drawn and
  to the `reduce` total that the page shows. The module also covers the
  capacity label (2, 8, 18) and the singular or plural "electron".

`Wrappers.Option` stands for the page's `null`-able values.

## Model

| member | source | states |
|---|---|---|
| Numbers.Gcd | src/components/ChemicalFormulae.tsx:71 | The Euclidean recursion terminates (decreasing second argument); the result is zero exactly when both arguments are, and at most `b` when `b > 0` |
| Numbers.GcdDivides | src/components/ChemicalFormulae.tsx:71 | `gcd(a, b)` divides both `a` and `b` |
| Numbers.GcdGreatest | src/components/ChemicalFormulae.tsx:71 | Every common divisor of `a` and `b` divides `gcd(a, b)`: it is the greatest common divisor |
| Numbers.GcdCommutes | src/components/ChemicalFormulae.tsx:71 | `gcd(a, b) == gcd(b, a)` |
| Numbers.GcdScale | src/components/ChemicalFormulae.tsx:71 | `gcd(k a, k b) == k gcd(a, b)` for `k > 0` |
| Numbers.CofactorsCoprime | src/components/ChemicalFormulae.tsx:71-72 | For positive `a`, `b` the gcd is positive, divides both, and `a / g`, `b / g` are coprime |
| Numbers.CoprimeDividesProduct | src/components/ChemicalFormulae.tsx:71-75 | Euclid's lemma: a divisor of `x a` coprime to `a` divides `x` (used for minimality of the counts) |
| Numbers.Digits | src/components/ChemicalFormulae.tsx:95 | The decimal digits of `num.toString()`: at least one, each below 10, no leading zero except for 0 itself |
| Numbers.DigitsRoundTrip | src/components/ChemicalFormulae.tsx:95 | Reading the digits back in base 10 gives the number |
| Numbers.DigitsInjective | src/components/ChemicalFormulae.tsx:95 | Distinct naturals have distinct digit strings |
| ChemicalFormulae.FilterMembership | src/components/ChemicalFormulae.tsx:61-62 | An ion is in the filtered list iff it is in the list and has the requested type |
| ChemicalFormulae.FilterKeepsOrder | src/components/ChemicalFormulae.tsx:61-62 | Filtering distributes over concatenation, so it keeps the original order |
| ChemicalFormulae.FiltersPartition | src/components/ChemicalFormulae.tsx:61-62 | The cation and anion filters of any list together have exactly its length: every ion lands in one of them |
| ChemicalFormulae.CommonIonsWellFormed | src/components/ChemicalFormulae.tsx:22-29 | Every ion of `commonIons` has a nonzero charge, is a cation iff its charge is positive, and has a capital-then-lower-case symbol |
| ChemicalFormulae.CommonIonsFiltered | src/components/ChemicalFormulae.tsx:61-62 | `cations` is Na, Ca, Al and `anions` is Cl, O, N, in table order |
| ChemicalFormulae.OfferedIons | src/components/ChemicalFormulae.tsx:61-62 | Every offered cation is well formed with positive charge; every offered anion with negative charge |
| ChemicalFormulae.TableChargesNonzero | src/components/ChemicalFormulae.tsx:22-29 | No ion of the table has charge 0 |
| ChemicalFormulae.LcmQuotients | src/components/ChemicalFormulae.tsx:72-75 | With `g = gcd(a, b)`, `lcm / a == b / g` and `lcm / b == a / g`; these are coprime and balance `a` against `b` |
| ChemicalFormulae.Balance | src/components/ChemicalFormulae.tsx:67-75 | The counts `lcm / a`, `lcm / b` are positive, balance the charges (`cationCount * a == anionCount * b`) and are coprime |
| ChemicalFormulae.BalanceIsMinimal | src/components/ChemicalFormulae.tsx:72-75 | Any balance `x a == y b` is a multiple of the computed counts, and with `x > 0` is at least as large in both counts |
| ChemicalFormulae.BalanceEqualCharges | src/components/ChemicalFormulae.tsx:72-75 | Equal magnitudes give counts 1 and 1 |
| ChemicalFormulae.BalanceCoprimeCharges | src/components/ChemicalFormulae.tsx:72-75 | Coprime magnitudes cross over: cation count is the anion magnitude and vice versa |
| ChemicalFormulae.SubscriptGlyphCodes | src/components/ChemicalFormulae.tsx:94 | The glyph table has ten entries and glyph `d` is code point U+2080 + `d` |
| ChemicalFormulae.Subscript | src/components/ChemicalFormulae.tsx:93-96 | One subscript glyph per decimal digit |
| ChemicalFormulae.SubscriptRoundTrip | src/components/ChemicalFormulae.tsx:93-96 | The subscript string reads back as the number, so glyphs follow the digits in order |
| ChemicalFormulae.SubscriptInjective | src/components/ChemicalFormulae.tsx:93-96 | Distinct counts get distinct subscripts |
| ChemicalFormulae.RenderPartParses | src/components/ChemicalFormulae.tsx:78-87 | A part (bare symbol for count 1, else symbol and subscript) reads back as its symbol and count whatever capitalised text follows |
| ChemicalFormulae.FormulaTextParses | src/components/ChemicalFormulae.tsx:77-88 | The formula text, cation part then anion part with no separator, reads back as the two symbols and the two balanced counts |
| ChemicalFormulae.ExampleCompoundsAgree | src/components/ChemicalFormulae.tsx:31-53 | The computed formula of each example compound is its listed one: NaCl, CaCl₂, Al₂O₃ |
| ChemicalFormulae.ChargeDisplay | src/components/ChemicalFormulae.tsx:98-102 | The label ends in `⁺` iff the charge is positive, else `⁻`; it is the sign alone iff the magnitude is 1 |
| ChemicalFormulae.ChargeDisplayRoundTrip | src/components/ChemicalFormulae.tsx:98-102 | The label reads back as the signed charge, so the magnitude precedes the sign in decimal |
| ChemicalFormulae.BuildFormula | src/components/ChemicalFormulae.tsx:67-88 | The gcd/lcm computation and the two `+=` appends produce exactly the balanced formula text |
| ChemicalFormulae.FormulaBuilder.constructor | src/components/ChemicalFormulae.tsx:56-59 | Starts on the first example compound with no ions chosen and an empty formula |
| ChemicalFormulae.FormulaBuilder.SelectCation | src/components/ChemicalFormulae.tsx:161 | A click on an offered cation sets only the chosen cation |
| ChemicalFormulae.FormulaBuilder.SelectAnion | src/components/ChemicalFormulae.tsx:180 | A click on an offered anion sets only the chosen anion |
| ChemicalFormulae.FormulaBuilder.SelectCompound | src/components/ChemicalFormulae.tsx:232 | A click on an example sets only the shown compound |
| ChemicalFormulae.FormulaBuilder.CalculateFormula | src/components/ChemicalFormulae.tsx:64-91 | With either ion missing the formula is unchanged; otherwise it becomes the balanced formula text |
| ChemicalFormulae.BuilderFormulaIsBalanced | src/components/ChemicalFormulae.tsx:64-91 | For every pair the page offers, the signed charges times the counts sum to zero, the counts are coprime, and the text reads back as symbols and counts |
| InteractiveQuiz.QuizQuestionsWellFormed | src/components/InteractiveQuiz.tsx:14-47 | Three questions, four options each, every `correctAnswer` an option index |
| InteractiveQuiz.CorrectCount | src/components/InteractiveQuiz.tsx:64-66 | The number of correct answers never exceeds the number of answers |
| InteractiveQuiz.CorrectCountIsSize | src/components/InteractiveQuiz.tsx:64-66 | The running count equals the number of positions `i` with `answers[i] == correctAnswer[i]` |
| InteractiveQuiz.CorrectCountAppend | src/components/InteractiveQuiz.tsx:61-66 | Appending an answer raises the count by one iff that answer is correct |
| InteractiveQuiz.InitialSatisfiesInv | src/components/InteractiveQuiz.tsx:49-53 | The starting state satisfies the invariant for any non-empty question table |
| InteractiveQuiz.SelectAnswerKeepsInv | src/components/InteractiveQuiz.tsx:55-57 | Choosing an option of the current question keeps the invariant and changes only `selectedAnswer` |
| InteractiveQuiz.NextQuestionWithoutSelection | src/components/InteractiveQuiz.tsx:60 | Without a selection the step changes no field |
| InteractiveQuiz.NextQuestionRecordsAnswer | src/components/InteractiveQuiz.tsx:61-66 | The step appends exactly the selection and keeps earlier answers; the score rises by 1 iff the selection is correct, else is unchanged |
| InteractiveQuiz.NextQuestionAdvances | src/components/InteractiveQuiz.tsx:68-73 | Before the last question the step advances and clears the selection; on the last it shows the result, keeps the question index, and all questions are answered |
| InteractiveQuiz.NextQuestionKeepsInv | src/components/InteractiveQuiz.tsx:59-75 | The step keeps the invariant: answers track the question index and the score counts correct answers |
| InteractiveQuiz.ResetRestoresInitial | src/components/InteractiveQuiz.tsx:77-83 | Reset gives question 0, no selection, not finished, score 0, no answers, from any state; resetting twice equals resetting once |
| InteractiveQuiz.ApplyKeepsInv | src/components/InteractiveQuiz.tsx:55-83 | Any click the page offers keeps the invariant |
| InteractiveQuiz.RunKeepsInv | src/components/InteractiveQuiz.tsx:55-83 | Every session of offered clicks keeps the invariant |
| InteractiveQuiz.ReachableScore | src/components/InteractiveQuiz.tsx:64-66 | In every reachable state the score is the number of correct answers and at most the number of answers |
| InteractiveQuiz.ScoreColorThresholds | src/components/InteractiveQuiz.tsx:85-90 | Green iff `10 score >= 7 n`, yellow iff below that and `2 score >= n`, red iff `2 score < n` |
| InteractiveQuiz.ScoreColorsOfTable | src/components/InteractiveQuiz.tsx:85-90 | With three questions, 3 is green, 2 yellow, 1 and 0 red |
| InteractiveQuiz.ResultMessageCases | src/components/InteractiveQuiz.tsx:105-109 | "Perfect" iff full score; "Great job" iff at least 70 per cent but not full, which no score of the three-question quiz reaches |
| InteractiveQuiz.Badges | src/components/InteractiveQuiz.tsx:114-115 | One badge per question |
| InteractiveQuiz.BadgesMatchScore | src/components/InteractiveQuiz.tsx:114-115 | On the result view badge `i` reads "Correct" iff answer `i` is correct, and the number of such badges is the score |
| InteractiveQuiz.TallyBounded | src/components/InteractiveQuiz.tsx:158 | The running tally's score never exceeds its denominator |
| InteractiveQuiz.FinishLabelMeansResult | src/components/InteractiveQuiz.tsx:189 | The button reads "Finish Quiz" exactly when pressing it shows the result |
| InteractiveQuiz.Quiz.constructor | src/components/InteractiveQuiz.tsx:49-53 | The fields start in the initial state, which satisfies the invariant |
| InteractiveQuiz.Quiz.HandleAnswerSelect | src/components/InteractiveQuiz.tsx:55-57 | Assigns only `selectedAnswer`, as `SelectAnswer`; keeps the invariant for an offered option |
| InteractiveQuiz.Quiz.HandleNextQuestion | src/components/InteractiveQuiz.tsx:59-75 | The field updates are exactly `NextQuestion`; the invariant is kept while a question shows |
| InteractiveQuiz.Quiz.ResetQuiz | src/components/InteractiveQuiz.tsx:77-83 | All five fields back to their starting values, as `Reset`; the invariant holds |
| AtomVisualization.ElectronTotalConcat | src/components/AtomVisualization.tsx:141 | The reduce total of a concatenation is the sum of the totals |
| AtomVisualization.ShellAtMostTotal | src/components/AtomVisualization.tsx:141 | No shell count exceeds the total |
| AtomVisualization.RadiiIncrease | src/components/AtomVisualization.tsx:31 | The innermost radius is 100 and radii strictly increase, by at least 60 per shell |
| AtomVisualization.RenderElectronShells | src/components/AtomVisualization.tsx:26-72 | One ring per shell with shell index and radius `100 + 60 i`; ring `i` holds exactly `electrons[i]` markers numbered in order; `electronCount` equals the markers drawn and the reduce total |
| AtomVisualization.MarkersDistinct | src/components/AtomVisualization.tsx:40 | Two markers of a drawing are equal only if they are in the same shell at the same position, so the `electron-<shell>-<i>` keys are unique |
| AtomVisualization.DrawnShellsCount | src/components/AtomVisualization.tsx:51 | Any drawing of a configuration carries exactly its reduce total of markers |
| AtomVisualization.ShellCapacityGrows | src/components/AtomVisualization.tsx:196 | Capacity label 2 for the first shell, 8 for the second, 18 for every later one; it never decreases outwards |
| AtomVisualization.ElectronWord | src/components/AtomVisualization.tsx:199 | "electron" for exactly one, "electrons" otherwise |
| AtomVisualization.ElementsConsistent | src/components/AtomVisualization.tsx:13-20 | Every table element's shells sum to its atomic number, every shell is occupied and within its capacity label |
| AtomVisualization.DrawingMatchesAtomicNumber | src/components/AtomVisualization.tsx:13-20 | The drawing of every table element has as many markers as its atomic number |

## Left out

- `src/components/MoleConcept.tsx` (mole and particle calculations): IEEE floating-point division, `parseFloat` and `toFixed` rounding, whose displayed strings an exact model would not match.
- JSX, CSS classes, the `Card`, `Button` and `Badge` wrappers, and the animation angles, durations and delays of the electron markers: presentation and floating-point timing.
- `src/components/ConceptExplorer.tsx`, `src/components/ChemicalLaws.tsx` and `src/pages/Index.tsx` hold static lesson text and navigation, with no logic to verify.
- React scheduling: each handler is one atomic transition that reads the values from before the click, as the setters do.
- Numbers: JavaScript numbers are doubles; the model uses unbounded integers. The two agree for the charges in the tables, which are at most 3.
- ChemicalFormulae.FormulaBuilder.SelectCation and SelectAnion: the setters accept any ion. The model requires one from the page's filtered lists, since those are the only buttons. This also keeps out a zero charge, for which the source's behaviour is undefined.
- ChemicalFormulae.Balance: requires both magnitudes positive, since a zero charge never reaches it from the tables.
- InteractiveQuiz.GetScoreColor and InteractiveQuiz.ResultMessage: the percentage and the 0.7 factor use exact reals instead of doubles. For scores 0 to 3 of 3 the comparisons come out the same.
- InteractiveQuiz invariant lemmas: they cover `handleAnswerSelect` and `handleNextQuestion` only while a question shows, because the result view offers only "Try Again". The class methods carry out the transitions in every state.
- InteractiveQuiz.NextQuestion requires the current question to exist: the page reads `quizQuestions[currentQuestion]`.
- The quiz's option buttons, "Your answer" and "Correct answer" texts and the `Question n of 3` badge are display only.
- AtomVisualization element picker and animation toggle (`selectedElement`, `isAnimating`): a selection among table rows and a display flag, with nothing to verify beyond `ElementsConsistent`.
- AtomVisualization.RenderElectronShells: returns the loop's `electronCount`, which the page computes and then discards. The shown total is the separate `reduce`, and the method proves the two equal.
