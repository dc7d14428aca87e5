/**
 * The atomic-structure quiz: a fixed table of three multiple-choice questions
 * and the five pieces of page state (`currentQuestion`, `selectedAnswer`,
 * `showResult`, `score`, `answers`) that the three handlers change.
 *
 * Each handler is one atomic transition. `QuizState` and the functions
 * `SelectAnswer`, `NextQuestion` and `Reset` are the specification; the class
 * `Quiz` holds the fields and its methods assign them as the handlers' setters do.
 */
module InteractiveQuiz {
  import opened Wrappers

  datatype Question = Question(
    id: nat,
    question: string,
    options: seq<string>,
    correctAnswer: nat,
    explanation: string)

  const AtomicNumberText := "What is the atomic number of an element?"
  const AtomicNumberOptions := ["Number of electrons", "Number of protons", "Number of neutrons", "Number of protons + neutrons"]
  const AtomicNumberExplanation := "The atomic number is the number of protons in the nucleus, which defines the element's identity."
  const AtomicNumberQuestion := Question(1, AtomicNumberText, AtomicNumberOptions, 1, AtomicNumberExplanation)

  const SecondShellText := "How many electrons can the second electron shell hold?"
  const SecondShellOptions := ["2", "6", "8", "18"]
  const SecondShellExplanation := "The second shell (L shell) can hold a maximum of 8 electrons."
  const SecondShellQuestion := Question(2, SecondShellText, SecondShellOptions, 2, SecondShellExplanation)

  const IsotopeText := "What makes isotopes of the same element different?"
  const IsotopeOptions := ["Number of protons", "Number of electrons", "Number of neutrons", "Number of shells"]
  const IsotopeExplanation := "Isotopes have the same number of protons but different numbers of neutrons."
  const IsotopeQuestion := Question(3, IsotopeText, IsotopeOptions, 2, IsotopeExplanation)

  const QuizQuestions: seq<Question> := [AtomicNumberQuestion, SecondShellQuestion, IsotopeQuestion]

  /** Every question offers four options and its `correctAnswer` indexes one of them. */
  lemma QuizQuestionsWellFormed()
    ensures |QuizQuestions| == 3
    ensures forall i :: 0 <= i < |QuizQuestions| ==>
      |QuizQuestions[i].options| == 4 && QuizQuestions[i].correctAnswer < |QuizQuestions[i].options|
  {
  }

  // ---------------------------------------------------------------------
  // Scoring
  //
  // The state machine below is stated for any question table `questions`; the
  // page uses it with `QuizQuestions`.

  /** The `correctAnswer` of each question, in table order. */
  function AnswerKey(questions: seq<Question>): seq<nat>
  {
    seq(|questions|, i requires 0 <= i < |questions| => questions[i].correctAnswer)
  }

  lemma AnswerKeyEntry(questions: seq<Question>, i: nat)
    requires i < |questions|
    ensures |AnswerKey(questions)| == |questions|
    ensures AnswerKey(questions)[i] == questions[i].correctAnswer
  {
  }

  /** The answer recorded for question `i` matches that question's entry in `key`. */
  predicate IsCorrect(key: seq<nat>, i: nat, answer: nat) {
    i < |key| && answer == key[i]
  }

  /** The number of recorded answers that are correct, counted from the last one back. */
  function CorrectCount(key: seq<nat>, answers: seq<nat>): (n: nat)
    ensures n <= |answers|
  {
    if answers == [] then 0
    else
      var last := |answers| - 1;
      CorrectCount(key, answers[..last]) + (if IsCorrect(key, last, answers[last]) then 1 else 0)
  }

  /** The positions of the correct answers. */
  function CorrectIndices(key: seq<nat>, answers: seq<nat>): set<nat>
  {
    set i: nat | i < |answers| && IsCorrect(key, i, answers[i])
  }

  /** The running count is the number of positions whose answer is correct. */
  lemma {:induction false} CorrectCountIsSize(key: seq<nat>, answers: seq<nat>)
    ensures CorrectCount(key, answers) == |CorrectIndices(key, answers)|
  {
    if answers != [] {
      var last := |answers| - 1;
      var prefix := answers[..last];
      CorrectCountIsSize(key, prefix);
      var now := if IsCorrect(key, last, answers[last]) then {last} else {};
      assert forall i :: 0 <= i < last ==> answers[i] == prefix[i];
      assert CorrectIndices(key, answers) == CorrectIndices(key, prefix) + now;
      assert last !in CorrectIndices(key, prefix);
    }
  }

  /** Appending one answer adds one to the count exactly when that answer is correct. */
  lemma CorrectCountAppend(key: seq<nat>, answers: seq<nat>, a: nat)
    ensures CorrectCount(key, answers + [a])
         == CorrectCount(key, answers) + (if IsCorrect(key, |answers|, a) then 1 else 0)
  {
    assert (answers + [a])[..|answers|] == answers;
  }

  // ---------------------------------------------------------------------
  // The state machine

  datatype QuizState = QuizState(
    currentQuestion: nat,
    selectedAnswer: Option<nat>,
    showResult: bool,
    score: nat,
    answers: seq<nat>)

  /** The state the page starts in, and the one `resetQuiz` restores. */
  function Initial(): QuizState {
    QuizState(0, None, false, 0, [])
  }

  /** `handleAnswerSelect(answerIndex)`: only the selection changes. */
  function SelectAnswer(s: QuizState, answerIndex: nat): QuizState {
    s.(selectedAnswer := Some(answerIndex))
  }

  /**
   * `handleNextQuestion`: with a selection, record it, score it against the
   * current question, then either advance and clear the selection or, on the
   * last question, show the result. Without a selection nothing happens.
   * The current question must exist: the page indexes the table with it.
   */
  function NextQuestion(questions: seq<Question>, s: QuizState): QuizState
    requires s.currentQuestion < |questions|
  {
    match s.selectedAnswer
    case None => s
    case Some(answer) =>
      var answers := s.answers + [answer];
      var score := if answer == questions[s.currentQuestion].correctAnswer then s.score + 1 else s.score;
      if s.currentQuestion < |questions| - 1 then
        s.(currentQuestion := s.currentQuestion + 1, selectedAnswer := None, score := score, answers := answers)
      else
        s.(showResult := true, score := score, answers := answers)
  }

  /** `resetQuiz`: every field back to its starting value, whatever the state was. */
  function Reset(s: QuizState): QuizState {
    Initial()
  }

  /** The selection, when there is one, is an option of the current question. */
  predicate SelectionValid(questions: seq<Question>, s: QuizState)
    requires s.currentQuestion < |questions|
  {
    s.selectedAnswer.Some? ==> s.selectedAnswer.value < |questions[s.currentQuestion].options|
  }

  /** Every recorded answer is an option of the question it answers. */
  predicate AnswersAreOptions(questions: seq<Question>, answers: seq<nat>) {
    forall i :: 0 <= i < |answers| ==> i < |questions| && answers[i] < |questions[i].options|
  }

  /**
   * The invariant of every state the page can reach. While the quiz runs, one
   * answer is recorded per question passed; once the result shows, every
   * question has an answer and the last one is still current. The score is the
   * number of correct answers, and every answer is an option of its question.
   */
  predicate Inv(questions: seq<Question>, s: QuizState) {
    && s.currentQuestion < |questions|
    && SelectionValid(questions, s)
    && (!s.showResult ==> |s.answers| == s.currentQuestion)
    && (s.showResult ==> |s.answers| == |questions| && s.currentQuestion == |questions| - 1)
    && AnswersAreOptions(questions, s.answers)
    && s.score == CorrectCount(AnswerKey(questions), s.answers)
  }

  lemma InitialSatisfiesInv(questions: seq<Question>)
    requires |questions| > 0
    ensures Inv(questions, Initial())
    ensures Initial().score == 0 && Initial().answers == [] && !Initial().showResult
  {
  }

  /** Choosing one of the current question's options keeps the invariant and changes only the selection. */
  lemma SelectAnswerKeepsInv(questions: seq<Question>, s: QuizState, answerIndex: nat)
    requires Inv(questions, s) && !s.showResult
    requires answerIndex < |questions[s.currentQuestion].options|
    ensures Inv(questions, SelectAnswer(s, answerIndex))
    ensures var t := SelectAnswer(s, answerIndex);
      t.selectedAnswer == Some(answerIndex)
      && t.currentQuestion == s.currentQuestion && t.showResult == s.showResult
      && t.score == s.score && t.answers == s.answers
  {
  }

  /** Without a selection the step changes no field. */
  lemma NextQuestionWithoutSelection(questions: seq<Question>, s: QuizState)
    requires s.currentQuestion < |questions| && s.selectedAnswer.None?
    ensures NextQuestion(questions, s) == s
  {
  }

  /**
   * A step with a selection appends exactly that answer, leaves the earlier
   * answers as they were, and adds one to the score exactly when the answer
   * is the current question's correct one.
   */
  lemma NextQuestionRecordsAnswer(questions: seq<Question>, s: QuizState)
    requires s.currentQuestion < |questions| && s.selectedAnswer.Some?
    ensures var t := NextQuestion(questions, s);
      && |t.answers| == |s.answers| + 1
      && t.answers[..|s.answers|] == s.answers
      && t.answers[|s.answers|] == s.selectedAnswer.value
      && (t.score == s.score + 1 <==> s.selectedAnswer.value == questions[s.currentQuestion].correctAnswer)
      && (t.score == s.score || t.score == s.score + 1)
  {
    var t := NextQuestion(questions, s);
    assert t.answers == s.answers + [s.selectedAnswer.value];
  }

  /** Before the last question a step moves on and clears the selection; on the last it shows the result. */
  lemma NextQuestionAdvances(questions: seq<Question>, s: QuizState)
    requires Inv(questions, s) && !s.showResult && s.selectedAnswer.Some?
    ensures var t := NextQuestion(questions, s);
      if s.currentQuestion < |questions| - 1 then
        t.currentQuestion == s.currentQuestion + 1 && t.selectedAnswer.None? && !t.showResult
      else
        t.currentQuestion == s.currentQuestion && t.showResult && |t.answers| == |questions|
  {
  }

  /** The step keeps the invariant, so the score stays the count of correct answers. */
  lemma NextQuestionKeepsInv(questions: seq<Question>, s: QuizState)
    requires Inv(questions, s) && !s.showResult
    ensures Inv(questions, NextQuestion(questions, s))
  {
    if s.selectedAnswer.Some? {
      var a := s.selectedAnswer.value;
      var t := NextQuestion(questions, s);
      NextQuestionScoreCounts(questions, s);
      AnswersStayOptions(questions, s.answers, a);
      assert t.answers == s.answers + [a];
      assert |t.answers| == s.currentQuestion + 1;
      if s.currentQuestion < |questions| - 1 {
        assert t.selectedAnswer.None? && !t.showResult && t.currentQuestion == s.currentQuestion + 1;
      } else {
        assert t.showResult && t.currentQuestion == s.currentQuestion;
      }
    }
  }

  /** When the score counted the correct answers before the step, it still does after it. */
  lemma NextQuestionScoreCounts(questions: seq<Question>, s: QuizState)
    requires s.currentQuestion < |questions| && s.selectedAnswer.Some?
    requires |s.answers| == s.currentQuestion && s.score == CorrectCount(AnswerKey(questions), s.answers)
    ensures NextQuestion(questions, s).score == CorrectCount(AnswerKey(questions), NextQuestion(questions, s).answers)
  {
    var a := s.selectedAnswer.value;
    assert NextQuestion(questions, s).answers == s.answers + [a];
    CorrectCountAppend(AnswerKey(questions), s.answers, a);
    AnswerKeyEntry(questions, s.currentQuestion);
  }

  lemma AnswersStayOptions(questions: seq<Question>, answers: seq<nat>, a: nat)
    requires AnswersAreOptions(questions, answers)
    requires |answers| < |questions| && a < |questions[|answers|].options|
    ensures AnswersAreOptions(questions, answers + [a])
  {
  }

  /** Reset lands in the starting state from anywhere, and resetting twice is resetting once. */
  lemma ResetRestoresInitial(questions: seq<Question>, s: QuizState)
    requires |questions| > 0
    ensures var t := Reset(s);
      t.currentQuestion == 0 && t.selectedAnswer.None? && !t.showResult && t.score == 0 && t.answers == []
    ensures Inv(questions, Reset(s))
    ensures Reset(Reset(s)) == Reset(s)
  {
  }

  // ---------------------------------------------------------------------
  // What the page lets a user do

  datatype Event = Choose(answerIndex: nat) | Next | TryAgain

  /**
   * The option buttons and the next/finish button exist only while a question
   * shows; the "Try Again" button only on the result view.
   */
  predicate Enabled(questions: seq<Question>, s: QuizState, e: Event) {
    match e
    case Choose(i) => !s.showResult && s.currentQuestion < |questions|
                      && i < |questions[s.currentQuestion].options|
    case Next => !s.showResult && s.currentQuestion < |questions|
    case TryAgain => s.showResult
  }

  function Apply(questions: seq<Question>, s: QuizState, e: Event): QuizState
    requires Enabled(questions, s, e)
  {
    match e
    case Choose(i) => SelectAnswer(s, i)
    case Next => NextQuestion(questions, s)
    case TryAgain => Reset(s)
  }

  /** Plays a session of clicks; `None` when some click is on a button that is not shown. */
  function Run(questions: seq<Question>, s: QuizState, events: seq<Event>): Option<QuizState>
    decreases |events|
  {
    if events == [] then Some(s)
    else if !Enabled(questions, s, events[0]) then None
    else Run(questions, Apply(questions, s, events[0]), events[1..])
  }

  lemma ApplyKeepsInv(questions: seq<Question>, s: QuizState, e: Event)
    requires Inv(questions, s) && Enabled(questions, s, e)
    ensures Inv(questions, Apply(questions, s, e))
  {
    match e
    case Choose(i) => SelectAnswerKeepsInv(questions, s, i);
    case Next => NextQuestionKeepsInv(questions, s);
    case TryAgain => ResetRestoresInitial(questions, s);
  }

  /** Every session of clicks from a state satisfying the invariant ends in one. */
  lemma {:induction false} RunKeepsInv(questions: seq<Question>, s: QuizState, events: seq<Event>)
    requires Inv(questions, s)
    ensures Run(questions, s, events).Some? ==> Inv(questions, Run(questions, s, events).value)
    decreases |events|
  {
    if events != [] && Enabled(questions, s, events[0]) {
      ApplyKeepsInv(questions, s, events[0]);
      RunKeepsInv(questions, Apply(questions, s, events[0]), events[1..]);
    }
  }

  /** Hence in every reachable state the score counts the correct answers and never exceeds them. */
  lemma ReachableScore(questions: seq<Question>, events: seq<Event>)
    requires |questions| > 0 && Run(questions, Initial(), events).Some?
    ensures var t := Run(questions, Initial(), events).value;
      t.score == |CorrectIndices(AnswerKey(questions), t.answers)| && t.score <= |t.answers| <= |questions|
  {
    InitialSatisfiesInv(questions);
    RunKeepsInv(questions, Initial(), events);
    CorrectCountIsSize(AnswerKey(questions), Run(questions, Initial(), events).value.answers);
  }

  // ---------------------------------------------------------------------
  // The result view

  datatype ScoreColor = Green | Yellow | Red

  /** `getScoreColor`: the percentage `score / length * 100` against 70 and 50. */
  function GetScoreColor(score: nat): ScoreColor
  {
    var percentage := (score as real / |QuizQuestions| as real) * 100.0;
    if percentage >= 70.0 then Green
    else if percentage >= 50.0 then Yellow
    else Red
  }

  /** The colour thresholds in whole numbers: at least 7/10 is green, at least 1/2 yellow. */
  lemma ScoreColorThresholds(score: nat)
    ensures GetScoreColor(score) == Green <==> 10 * score >= 7 * |QuizQuestions|
    ensures GetScoreColor(score) == Yellow <==> 10 * score < 7 * |QuizQuestions| && 2 * score >= |QuizQuestions|
    ensures GetScoreColor(score) == Red <==> 2 * score < |QuizQuestions|
  {
  }

  const PerfectMessage := "Perfect! You're an atomic structure expert!"
  const GreatJobMessage := "Great job! You understand the basics well."
  const KeepStudyingMessage := "Keep studying - you're getting there!"

  /** The message under the score: perfect, at least 70 per cent, or neither. */
  function ResultMessage(score: nat): string
  {
    if score == |QuizQuestions| then PerfectMessage
    else if score as real >= |QuizQuestions| as real * 0.7 then GreatJobMessage
    else KeepStudyingMessage
  }

  /**
   * The "Perfect" message shows exactly for a full score. With three questions
   * the "Great job" branch needs 2.1 correct answers, so a score below three
   * always reads "Keep studying".
   */
  lemma ResultMessageCases(score: nat)
    requires score <= |QuizQuestions|
    ensures ResultMessage(score) == PerfectMessage <==> score == |QuizQuestions|
    ensures ResultMessage(score) == GreatJobMessage <==> 10 * score >= 7 * |QuizQuestions| && score != |QuizQuestions|
    ensures ResultMessage(score) != GreatJobMessage
    ensures score < |QuizQuestions| ==> ResultMessage(score) == KeepStudyingMessage
  {
  }

  /** The colour for each possible score of the three-question table. */
  lemma ScoreColorsOfTable()
    ensures GetScoreColor(3) == Green && GetScoreColor(2) == Yellow
    ensures GetScoreColor(1) == Red && GetScoreColor(0) == Red
  {
  }

  /** The per-question badge: "Correct" exactly when the recorded answer is the correct one. */
  function Badges(questions: seq<Question>, s: QuizState): (badges: seq<bool>)
    ensures |badges| == |questions|
  {
    seq(|questions|, i requires 0 <= i < |questions| =>
      i < |s.answers| && s.answers[i] == questions[i].correctAnswer)
  }

  /** On the result view the number of "Correct" badges is the score shown above them. */
  lemma BadgesMatchScore(questions: seq<Question>, s: QuizState)
    requires Inv(questions, s) && s.showResult
    ensures forall i :: 0 <= i < |questions| ==>
      (Badges(questions, s)[i] <==> IsCorrect(AnswerKey(questions), i, s.answers[i]))
    ensures |set i: nat | i < |questions| && Badges(questions, s)[i]| == s.score
  {
    CorrectCountIsSize(AnswerKey(questions), s.answers);
    assert (set i: nat | i < |questions| && Badges(questions, s)[i]) == CorrectIndices(AnswerKey(questions), s.answers);
  }

  // ---------------------------------------------------------------------
  // The question view

  /** The running tally `score / (currentQuestion + (selected ? 1 : 0))`. */
  function Tally(s: QuizState): (nat, nat)
  {
    (s.score, s.currentQuestion + (if s.selectedAnswer.Some? then 1 else 0))
  }

  /** The tally's numerator never exceeds its denominator while a question shows. */
  lemma TallyBounded(questions: seq<Question>, s: QuizState)
    requires Inv(questions, s) && !s.showResult
    ensures Tally(s).0 <= Tally(s).1
  {
  }

  /** The button reads "Finish Quiz" on the last question, "Next Question" before it. */
  function NextButtonLabel(questions: seq<Question>, s: QuizState): string
  {
    if s.currentQuestion < |questions| - 1 then "Next Question" else "Finish Quiz"
  }

  /** The button says "Finish Quiz" exactly when pressing it with a selection shows the result. */
  lemma FinishLabelMeansResult(questions: seq<Question>, s: QuizState)
    requires Inv(questions, s) && !s.showResult && s.selectedAnswer.Some?
    ensures NextButtonLabel(questions, s) == "Finish Quiz" <==> NextQuestion(questions, s).showResult
  {
  }

  // ---------------------------------------------------------------------
  // The component's state

  /** The five state fields; each handler assigns them as its setters do. */
  class Quiz {
    var currentQuestion: nat
    var selectedAnswer: Option<nat>
    var showResult: bool
    var score: nat
    var answers: seq<nat>

    function State(): QuizState
      reads this
    {
      QuizState(currentQuestion, selectedAnswer, showResult, score, answers)
    }

    ghost predicate Valid()
      reads this
    {
      Inv(QuizQuestions, State())
    }

    constructor()
      ensures State() == Initial() && Valid()
    {
      currentQuestion := 0;
      selectedAnswer := None;
      showResult := false;
      score := 0;
      answers := [];
    }

    method HandleAnswerSelect(answerIndex: nat)
      modifies this`selectedAnswer
      ensures selectedAnswer == Some(answerIndex)
      ensures State() == SelectAnswer(old(State()), answerIndex)
      ensures old(Valid()) && !showResult && answerIndex < |QuizQuestions[currentQuestion].options| ==> Valid()
    {
      selectedAnswer := Some(answerIndex);
      if old(Valid()) && !showResult && answerIndex < |QuizQuestions[currentQuestion].options| {
        SelectAnswerKeepsInv(QuizQuestions, old(State()), answerIndex);
      }
    }

    method HandleNextQuestion()
      requires currentQuestion < |QuizQuestions|
      modifies this
      ensures State() == NextQuestion(QuizQuestions, old(State()))
      ensures old(Valid()) && !old(showResult) ==> Valid()
    {
      ghost var before := State();
      if selectedAnswer.Some? {
        var answer := selectedAnswer.value;
        var correct := QuizQuestions[currentQuestion].correctAnswer;
        answers := answers + [answer];
        if answer == correct {
          score := score + 1;
        }
        if currentQuestion < |QuizQuestions| - 1 {
          currentQuestion := currentQuestion + 1;
          selectedAnswer := None;
        } else {
          showResult := true;
        }
      }
      assert State() == NextQuestion(QuizQuestions, before);
      if Inv(QuizQuestions, before) && !before.showResult {
        NextQuestionKeepsInv(QuizQuestions, before);
      }
    }

    method ResetQuiz()
      modifies this
      ensures currentQuestion == 0 && selectedAnswer.None? && !showResult && score == 0 && answers == []
      ensures State() == Reset(old(State())) && Valid()
    {
      currentQuestion := 0;
      selectedAnswer := None;
      showResult := false;
      score := 0;
      answers := [];
      ResetRestoresInitial(QuizQuestions, old(State()));
    }
  }
}
