/** The multiple-choice quiz page (js/quiz.js): where its cards come from,
    the session state (`quiz`, `answers`, `current`), clamped navigation,
    answer recording, scoring, retry and the keyboard gate. */
module Quiz {
  import opened Common
  import opened Flashcard

  /** One generated question: `{id, question, options: [...], answerIndex}`. */
  datatype Question = Question(id: string, question: string, options: seq<string>, answerIndex: nat)

  /** The shape the page relies on without checking it: at least two options
      and a correct index that names one of them. */
  predicate WellFormed(q: Question) {
    |q.options| >= 2 && q.answerIndex < |q.options|
  }

  predicate WellFormedQuiz(quiz: seq<Question>) {
    forall i :: 0 <= i < |quiz| ==> WellFormed(quiz[i])
  }

  /** Every recorded answer to a question of the quiz names one of its
      options, as the option buttons of `renderQuestion` guarantee. Answers
      to positions past the quiz can exist: when an empty quiz loads,
      `renderQuestion` returns before clearing the previous quiz's option
      buttons, and those still record their answers. */
  predicate AnswersFit(quiz: seq<Question>, answers: map<nat, nat>) {
    forall i :: i in answers && i < |quiz| ==> answers[i] < |quiz[i].options|
  }

  // ---------------------------------------------------------------------
  // Choosing the cards and the question count (startQuiz)
  // ---------------------------------------------------------------------

  /** Why `startQuiz` gives up: the saved-card request failed, there were no
      cards at all, or the quiz-generation request failed. */
  datatype StartError = CardFetchFailed | NoCards | GenerationFailed

  /** The body of the quiz-generation request. */
  datatype GenerateRequest = GenerateRequest(cards: seq<Card>, numQuestions: int)

  /** `Number(numSelect.value) || 5`; `input` is the parsed number, None for NaN. */
  function QuestionCount(input: Option<int>): (n: int)
    ensures input == None || input == Some(0) ==> n == 5
    ensures input.Some? && input.value != 0 ==> n == input.value
    ensures n != 0
  {
    if input.Some? && input.value != 0 then input.value else 5
  }

  /** The locally cached generated cards are used only when the user picked
      the "generated" source and the cache is not empty. */
  predicate UsesCache(source: string, cache: seq<Card>) {
    source == "generated" && |cache| > 0
  }

  /** What `startQuiz` sends to the quiz generator, or why it stops first.
      `remote` is the saved-card request, consulted only when the cache is not used. */
  function PlanQuiz(source: string, input: Option<int>, cache: seq<Card>, remote: Response<seq<Card>>)
    : (r: Result<GenerateRequest, StartError>)
    ensures r.Ok? ==> |r.value.cards| > 0 && r.value.numQuestions == QuestionCount(input)
    ensures UsesCache(source, cache) ==> r.Ok? && r.value.cards == cache
    ensures !UsesCache(source, cache) && remote.Failed? ==> r == Err(CardFetchFailed)
    ensures !UsesCache(source, cache) && remote.Body? ==>
      if |remote.value| == 0 then r == Err(NoCards) else r.Ok? && r.value.cards == remote.value
  {
    var n := QuestionCount(input);
    if UsesCache(source, cache) then Ok(GenerateRequest(cache, n))
    else if remote.Failed? then Err(CardFetchFailed)
    else if |remote.value| == 0 then Err(NoCards)
    else Ok(GenerateRequest(remote.value, n))
  }

  // ---------------------------------------------------------------------
  // Navigation (showPrev / showNext)
  // ---------------------------------------------------------------------

  /** `showNext`: advance unless already on the last question. */
  function StepForward(current: nat, length: nat): (r: nat)
    ensures current < length ==> r < length
    ensures r == current || r == current + 1
    ensures r == current + 1 <==> current < length - 1
  {
    if current < length - 1 then current + 1 else current
  }

  /** `showPrev`: go back unless already on the first question. */
  function StepBack(current: nat): (r: nat)
    ensures r <= current
    ensures r == current - 1 <==> current > 0
  {
    if current > 0 then current - 1 else current
  }

  /** From an inner question, next then previous (or previous then next)
      returns to it; at the ends there is no wrap-around. */
  lemma StepsInverse(current: nat, length: nat)
    requires current < length
    ensures current < length - 1 ==> StepBack(StepForward(current, length)) == current
    ensures current > 0 ==> StepForward(StepBack(current), length) == current
    ensures StepForward(length - 1, length) == length - 1
    ensures StepBack(0) == 0
  {
  }

  // ---------------------------------------------------------------------
  // Scoring (submitQuiz)
  // ---------------------------------------------------------------------

  /** One row of the result list. `selected` is None for an unanswered question. */
  datatype Detail = Detail(question: string, selected: Option<string>, correct: string, isCorrect: bool)

  datatype Score = Score(total: nat, correct: nat, details: seq<Detail>)

  predicate IsCorrect(quiz: seq<Question>, answers: map<nat, nat>, i: nat)
    requires i < |quiz|
  {
    i in answers && answers[i] == quiz[i].answerIndex
  }

  /** The questions before `k` whose recorded answer is the right one. */
  function CorrectBelow(quiz: seq<Question>, answers: map<nat, nat>, k: nat): set<nat>
    requires k <= |quiz|
  {
    set i: nat | i < k && IsCorrect(quiz, answers, i)
  }

  function CorrectIndices(quiz: seq<Question>, answers: map<nat, nat>): set<nat> {
    CorrectBelow(quiz, answers, |quiz|)
  }

  /** One more question adds itself to the right answers exactly when it is right. */
  lemma CorrectBelowStep(quiz: seq<Question>, answers: map<nat, nat>, k: nat)
    requires k < |quiz|
    ensures CorrectBelow(quiz, answers, k + 1) ==
      CorrectBelow(quiz, answers, k) + (if IsCorrect(quiz, answers, k) then {k} else {})
  {
    var below, next := CorrectBelow(quiz, answers, k), CorrectBelow(quiz, answers, k + 1);
    forall i | i in next
      ensures i in below || i == k
    {
    }
  }

  lemma {:induction false} CorrectBelowBounded(quiz: seq<Question>, answers: map<nat, nat>, k: nat)
    requires k <= |quiz|
    ensures |CorrectBelow(quiz, answers, k)| <= k
  {
    if k > 0 {
      CorrectBelowBounded(quiz, answers, k - 1);
      CorrectBelowStep(quiz, answers, k - 1);
    }
  }

  /** The result row for question `i`. */
  function DetailAt(quiz: seq<Question>, answers: map<nat, nat>, i: nat): Detail
    requires WellFormedQuiz(quiz) && AnswersFit(quiz, answers) && i < |quiz|
  {
    var q := quiz[i];
    Detail(q.question,
           if i in answers then Some(q.options[answers[i]]) else None,
           q.options[q.answerIndex],
           IsCorrect(quiz, answers, i))
  }

  /** The attempt's result as `submitQuiz` computes it: a pure read of the
      session state. */
  function Scored(quiz: seq<Question>, answers: map<nat, nat>): (s: Score)
    requires WellFormedQuiz(quiz) && AnswersFit(quiz, answers)
    ensures s.total == |quiz| == |s.details|
    ensures s.correct <= s.total
    ensures s.correct == |set i | 0 <= i < |s.details| && s.details[i].isCorrect|
    ensures forall i :: 0 <= i < |quiz| ==> s.details[i].question == quiz[i].question
    ensures forall i :: 0 <= i < |quiz| ==>
      s.details[i].selected == (if i in answers then Some(quiz[i].options[answers[i]]) else None)
    ensures forall i :: 0 <= i < |quiz| ==> s.details[i].correct == quiz[i].options[quiz[i].answerIndex]
    ensures forall i :: 0 <= i < |quiz| ==>
      (s.details[i].isCorrect <==> i in answers && answers[i] == quiz[i].answerIndex)
  {
    var details := seq(|quiz|, i requires 0 <= i < |quiz| => DetailAt(quiz, answers, i));
    CorrectBelowBounded(quiz, answers, |quiz|);
    assert (set i | 0 <= i < |details| && details[i].isCorrect) == CorrectIndices(quiz, answers);
    Score(|quiz|, |CorrectIndices(quiz, answers)|, details)
  }

  /** The scoring loop of `submitQuiz`: one pass that counts the right answers
      and appends one result row per question. */
  method ScoreQuiz(quiz: seq<Question>, answers: map<nat, nat>) returns (s: Score)
    requires WellFormedQuiz(quiz) && AnswersFit(quiz, answers)
    ensures s == Scored(quiz, answers)
  {
    var total := |quiz|;
    var correct := 0;
    var details: seq<Detail> := [];
    var i := 0;
    while i < |quiz|
      invariant i <= |quiz|
      invariant correct == |CorrectBelow(quiz, answers, i)|
      invariant |details| == i
      invariant forall j :: 0 <= j < i ==> details[j] == DetailAt(quiz, answers, j)
    {
      var q := quiz[i];
      var selected := if i in answers then Some(answers[i]) else None;
      var isCorrect := selected == Some(q.answerIndex);
      CorrectBelowStep(quiz, answers, i);
      if isCorrect {
        correct := correct + 1;
      }
      var shown := if selected.Some? then Some(q.options[selected.value]) else None;
      details := details + [Detail(q.question, shown, q.options[q.answerIndex], isCorrect)];
      i := i + 1;
    }
    s := Score(total, correct, details);
  }

  /** Choosing option `idx` for question `i` affects that question's row and
      nothing else: every other row is unchanged, and the score moves by at
      most one. */
  lemma ChoiceIsLocal(quiz: seq<Question>, answers: map<nat, nat>, i: nat, idx: nat)
    requires WellFormedQuiz(quiz) && AnswersFit(quiz, answers)
    requires i < |quiz| && idx < |quiz[i].options|
    ensures AnswersFit(quiz, answers[i := idx])
    ensures forall j :: 0 <= j < |quiz| && j != i ==>
      Scored(quiz, answers[i := idx]).details[j] == Scored(quiz, answers).details[j]
    ensures Scored(quiz, answers[i := idx]).details[i].isCorrect <==> idx == quiz[i].answerIndex
    ensures CorrectIndices(quiz, answers[i := idx]) - {i} == CorrectIndices(quiz, answers) - {i}
  {
    var a := answers[i := idx];
    assert CorrectIndices(quiz, a) - {i} == CorrectIndices(quiz, answers) - {i};
  }

  /** Recording the right option for a question that was wrong or unanswered
      raises the score by exactly one. */
  lemma RightChoiceAddsOne(quiz: seq<Question>, answers: map<nat, nat>, i: nat)
    requires WellFormedQuiz(quiz) && AnswersFit(quiz, answers)
    requires i < |quiz| && !IsCorrect(quiz, answers, i)
    ensures AnswersFit(quiz, answers[i := quiz[i].answerIndex])
    ensures Scored(quiz, answers[i := quiz[i].answerIndex]).correct == Scored(quiz, answers).correct + 1
  {
    var a := answers[i := quiz[i].answerIndex];
    assert CorrectIndices(quiz, a) == CorrectIndices(quiz, answers) + {i};
  }

  /** Replacing a right answer with a wrong option lowers the score by exactly one. */
  lemma WrongChoiceRemovesOne(quiz: seq<Question>, answers: map<nat, nat>, i: nat, idx: nat)
    requires WellFormedQuiz(quiz) && AnswersFit(quiz, answers)
    requires i < |quiz| && IsCorrect(quiz, answers, i)
    requires idx < |quiz[i].options| && idx != quiz[i].answerIndex
    ensures AnswersFit(quiz, answers[i := idx])
    ensures Scored(quiz, answers[i := idx]).correct + 1 == Scored(quiz, answers).correct
  {
    var a := answers[i := idx];
    assert CorrectIndices(quiz, answers) == CorrectIndices(quiz, a) + {i};
  }

  /** A choice recorded past the end of the quiz, by an option button left
      over from an earlier quiz, changes nothing in the score. */
  lemma StaleChoiceKeepsScore(quiz: seq<Question>, answers: map<nat, nat>, i: nat, idx: nat)
    requires WellFormedQuiz(quiz) && AnswersFit(quiz, answers)
    requires i >= |quiz|
    ensures AnswersFit(quiz, answers[i := idx])
    ensures Scored(quiz, answers[i := idx]) == Scored(quiz, answers)
  {
    var a := answers[i := idx];
    assert CorrectIndices(quiz, a) == CorrectIndices(quiz, answers);
    assert Scored(quiz, a).details == Scored(quiz, answers).details;
  }

  /** Choosing the same option twice leaves the answers as choosing it once. */
  lemma RepeatChoice(answers: map<nat, nat>, i: nat, idx: nat)
    ensures answers[i := idx][i := idx] == answers[i := idx]
  {
  }

  /** With nothing answered, every question counts as wrong. */
  lemma NothingAnsweredScoresZero(quiz: seq<Question>)
    requires WellFormedQuiz(quiz)
    ensures Scored(quiz, map[]).correct == 0
  {
    assert CorrectIndices(quiz, map[]) == {};
  }

  /** The answers that pick the right option everywhere. */
  function AnswerKey(quiz: seq<Question>): map<nat, nat> {
    map i: nat | i < |quiz| :: quiz[i].answerIndex
  }

  lemma {:induction false} AnswerKeyBelow(quiz: seq<Question>, k: nat)
    requires k <= |quiz|
    ensures |CorrectBelow(quiz, AnswerKey(quiz), k)| == k
  {
    if k > 0 {
      AnswerKeyBelow(quiz, k - 1);
      assert CorrectBelow(quiz, AnswerKey(quiz), k) == CorrectBelow(quiz, AnswerKey(quiz), k - 1) + {k - 1};
    }
  }

  /** Answering every question with its correct option scores full marks. */
  lemma AnswerKeyScoresTotal(quiz: seq<Question>)
    requires WellFormedQuiz(quiz)
    ensures AnswersFit(quiz, AnswerKey(quiz))
    ensures Scored(quiz, AnswerKey(quiz)).correct == |quiz|
  {
    AnswerKeyBelow(quiz, |quiz|);
  }

  /** A worked example: two questions, the first answered right, the second wrong. */
  lemma TwoQuestionExample()
    ensures var quiz := [Question("q1", "2+2?", ["3", "4", "5"], 1),
                         Question("q2", "Capital of France?", ["Berlin", "Paris", "Rome"], 1)];
            WellFormedQuiz(quiz) && AnswersFit(quiz, map[0 := 1, 1 := 0]) &&
            var s := Scored(quiz, map[0 := 1, 1 := 0]);
            s.total == 2 && s.correct == 1 &&
            s.details[0] == Detail("2+2?", Some("4"), "4", true) &&
            s.details[1] == Detail("Capital of France?", Some("Berlin"), "Paris", false)
  {
    var quiz := [Question("q1", "2+2?", ["3", "4", "5"], 1),
                 Question("q2", "Capital of France?", ["Berlin", "Paris", "Rome"], 1)];
    var answers := map[0 := 1, 1 := 0];
    assert CorrectIndices(quiz, answers) == {0};
  }

  // ---------------------------------------------------------------------
  // Keyboard
  // ---------------------------------------------------------------------

  datatype QuizCommand = Ignore | GoNext | GoPrev | Submit

  /** The page's keydown handler: while a quiz exists and its results are
      shown, keys do nothing; otherwise the right arrow advances, the left
      arrow goes back and Enter submits. */
  function QuizKeyCommand(key: Key, quizLength: nat, resultsShown: bool): (c: QuizCommand)
    ensures quizLength > 0 && resultsShown ==> c == Ignore
    ensures !(quizLength > 0 && resultsShown) ==>
      (c == GoNext <==> key == ArrowRight) && (c == GoPrev <==> key == ArrowLeft) && (c == Submit <==> key == Enter)
  {
    if quizLength > 0 && resultsShown then Ignore
    else match key
      case ArrowRight => GoNext
      case ArrowLeft => GoPrev
      case Enter => Submit
      case _ => Ignore
  }

  // ---------------------------------------------------------------------
  // The session state of the page
  // ---------------------------------------------------------------------

  class QuizSession {
    var quiz: seq<Question>
    var answers: map<nat, nat>
    var current: nat
    /** Whether the result area is visible (it replaces the question area). */
    var resultsShown: bool

    ghost predicate Valid()
      reads this
    {
      WellFormedQuiz(quiz) && AnswersFit(quiz, answers) && (current < |quiz| || current == 0)
    }

    /** The page as loaded: no quiz yet. */
    constructor ()
      ensures Valid()
      ensures quiz == [] && answers == map[] && current == 0 && !resultsShown
    {
      quiz, answers, current, resultsShown := [], map[], 0, false;
    }

    /** `startQuiz`. The two network results are parameters: `remote` is the
        saved-card request and `generated` the quiz the generator returned.
        On any failure the previous session is left as it was. */
    method StartQuiz(source: string, input: Option<int>, cache: seq<Card>,
                     remote: Response<seq<Card>>, generated: Response<seq<Question>>)
      returns (r: Result<GenerateRequest, StartError>)
      requires Valid()
      requires generated.Body? ==> WellFormedQuiz(generated.value)
      modifies this
      ensures Valid()
      ensures PlanQuiz(source, input, cache, remote).Err? ==> r == PlanQuiz(source, input, cache, remote)
      ensures PlanQuiz(source, input, cache, remote).Ok? ==>
        r == (if generated.Failed? then Err(GenerationFailed) else PlanQuiz(source, input, cache, remote))
      ensures r.Ok? ==> quiz == generated.value && answers == map[] && current == 0 && !resultsShown
      ensures r.Err? ==> quiz == old(quiz) && answers == old(answers) && current == old(current)
                         && resultsShown == old(resultsShown)
    {
      r := PlanQuiz(source, input, cache, remote);
      if r.Err? {
        return;
      }
      if generated.Failed? {
        r := Err(GenerationFailed);
        return;
      }
      quiz := generated.value;
      answers := map[];
      current := 0;
      resultsShown := false;
    }

    method ShowPrev()
      requires Valid()
      modifies this`current
      ensures Valid()
      ensures current == StepBack(old(current))
    {
      if current > 0 {
        current := current - 1;
      }
    }

    method ShowNext()
      requires Valid()
      modifies this`current
      ensures Valid()
      ensures current == StepForward(old(current), |quiz|)
    {
      if current < |quiz| - 1 {
        current := current + 1;
      }
    }

    /** The click handler of option button `idx` of question `i`. The button
      may be left over from an earlier quiz, so `i` may lie past the quiz. */
    method ChooseOption(i: nat, idx: nat)
      requires Valid()
      requires i < |quiz| ==> idx < |quiz[i].options|
      modifies this`answers
      ensures Valid()
      ensures answers == old(answers)[i := idx]
    {
      answers := answers[i := idx];
    }

    /** `submitQuiz`: score the attempt and show the results. */
    method SubmitQuiz() returns (s: Score)
      requires Valid()
      modifies this`resultsShown
      ensures Valid() && resultsShown
      ensures s == Scored(quiz, answers)
    {
      s := ScoreQuiz(quiz, answers);
      resultsShown := true;
    }

    /** `retryQuiz`: the same questions, answers cleared, back to the first one. */
    method RetryQuiz()
      requires Valid()
      modifies this`answers, this`current, this`resultsShown
      ensures Valid()
      ensures answers == map[] && current == 0 && !resultsShown
    {
      answers := map[];
      current := 0;
      resultsShown := false;
    }

    /** The document keydown handler; returns the score when Enter submitted. */
    method KeyDown(key: Key) returns (s: Option<Score>)
      requires Valid()
      modifies this`current, this`resultsShown
      ensures Valid()
      ensures var c := QuizKeyCommand(key, |quiz|, old(resultsShown));
        && current == (match c
                       case GoNext => StepForward(old(current), |quiz|)
                       case GoPrev => StepBack(old(current))
                       case _ => old(current))
        && resultsShown == (c == Submit || old(resultsShown))
        && s == (if c == Submit then Some(Scored(quiz, answers)) else None)
    {
      s := None;
      match QuizKeyCommand(key, |quiz|, resultsShown)
      case GoNext => ShowNext();
      case GoPrev => ShowPrev();
      case Submit =>
        var score := SubmitQuiz();
        s := Some(score);
      case Ignore =>
    }
  }
}
