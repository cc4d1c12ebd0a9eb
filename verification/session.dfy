/**
 * The quiz session of src/components/Quiz.jsx: the state the `Quiz`
 * component keeps (`questions`, `loading`, `error`, `currentIdx`, `score`,
 * `finished`, `answerFeedback`), its reset effect, the settling of the
 * generation call, `handleAnswer`, the body of the timer `handleAnswer`
 * schedules, and the choice of what the component renders.
 */
module Session {
  import opened Wrappers
  import opened Generator
  import ResultView

  datatype Feedback = NoFeedback | Correct | Wrong

  /** One call of `handleAnswer` that got past the `finished` guard: the
      question index it was given at and the option it carried. */
  datatype AnswerEntry = AnswerEntry(index: nat, selected: string)

  /** What the component renders, in the order its early returns test. */
  datatype Screen =
    | Spinner
    | ErrorPanel(message: string)
    | Results(score: nat, total: nat)
    | Asking(number: nat, total: nat, question: QuestionRecord, score: nat, background: string)

  const LoadFailedMessage: string := "Failed to load questions."

  /** The message the rejection handler stores: `err.message || "Failed to load questions."`. */
  function LoadErrorText(message: string): (text: string)
    ensures text != ""
    ensures message != "" ==> text == message
    ensures message == "" ==> text == LoadFailedMessage
  {
    if message != "" then message else LoadFailedMessage
  }

  /** Every failure of the generation call carries a non-empty message, so
      the fallback text of the rejection handler is never shown for it. */
  lemma FetchFailureTextShownVerbatim(response: Response, parse: string -> Option<seq<QuestionRecord>>)
    requires FetchQuestions(response, parse).Failure?
    ensures LoadErrorText(FetchQuestions(response, parse).message) == FetchQuestions(response, parse).message
  {
  }

  /** Whether an answer matched the correct answer of the question it was given at. */
  predicate IsCorrect(questions: seq<QuestionRecord>, a: AnswerEntry)
  {
    a.index < |questions| && a.selected == questions[a.index].correctAnswer
  }

  /** Number of answers that matched their question's correct answer. */
  function CorrectCount(questions: seq<QuestionRecord>, answers: seq<AnswerEntry>): (n: nat)
    ensures n <= |answers|
    ensures n == |answers| ==> forall k :: 0 <= k < |answers| ==> IsCorrect(questions, answers[k])
  {
    if answers == [] then 0
    else
      var prefix := answers[..|answers| - 1];
      CorrectCount(questions, prefix) + (if IsCorrect(questions, answers[|answers| - 1]) then 1 else 0)
  }

  /** The background class `getBackgroundClass` picks for the question panel. */
  function BackgroundClass(feedback: Feedback): (c: string)
    ensures c == "bg-green-800" <==> feedback == Correct
    ensures c == "bg-red-800" <==> feedback == Wrong
    ensures c == "bg-gray-800" <==> feedback == NoFeedback
  {
    match feedback
    case Correct => "bg-green-800"
    case Wrong => "bg-red-800"
    case NoFeedback => "bg-gray-800"
  }

  class QuizSession {
    var questions: seq<QuestionRecord>
    var loading: bool
    var error: string
    var currentIdx: nat
    var score: nat
    var finished: bool
    var feedback: Feedback
    /** The answers `handleAnswer` accepted since the last reset. */
    ghost var answers: seq<AnswerEntry>

    ghost predicate Valid()
      reads this
    {
      && (currentIdx < |questions| || currentIdx == 0)
      && (finished ==> currentIdx + 1 == |questions|)
      && (loading ==> error == "" && currentIdx == 0 && score == 0 && !finished
                      && feedback == NoFeedback && answers == [])
      && (forall k :: 0 <= k < |answers| ==> answers[k].index <= currentIdx)
      && score == CorrectCount(questions, answers)
    }

    /** The `useState` initial values on mount. */
    constructor ()
      ensures Valid()
      ensures questions == [] && loading && error == "" && currentIdx == 0 && score == 0
      ensures !finished && feedback == NoFeedback && answers == []
    {
      questions := [];
      loading := true;
      error := "";
      currentIdx := 0;
      score := 0;
      finished := false;
      feedback := NoFeedback;
      answers := [];
    }

    /** The effect that runs when the settings arrive: everything but the
        question list is reset, and the generation call is issued. */
    method Start()
      modifies this
      ensures Valid()
      ensures loading && error == "" && !finished && score == 0 && currentIdx == 0
      ensures feedback == NoFeedback && answers == []
      ensures questions == old(questions)
    {
      loading := true;
      error := "";
      finished := false;
      score := 0;
      currentIdx := 0;
      feedback := NoFeedback;
      answers := [];
    }

    /** The generation call settles: its questions are stored, or its
        message becomes the error; loading ends either way. */
    method Resolve(outcome: FetchResult)
      requires Valid() && loading
      modifies this
      ensures Valid() && !loading
      ensures outcome.Questions? ==> questions == outcome.questions && error == ""
      ensures outcome.Failure? ==> questions == old(questions) && error == LoadErrorText(outcome.message)
      ensures error != "" <==> outcome.Failure?
      ensures currentIdx == 0 && score == 0 && !finished && feedback == NoFeedback && answers == []
    {
      match outcome {
        case Questions(qs) => questions := qs;
        case Failure(message) => error := LoadErrorText(message);
      }
      loading := false;
    }

    /** `handleAnswer(selected)`: nothing once finished; otherwise the score
        rises by one exactly when the option is the current question's
        correct answer, and the feedback says which. The advance is left to
        `Advance`, the body of the timer scheduled here. */
    method Answer(selected: string)
      requires Valid() && !loading
      requires finished || |questions| > 0
      modifies this
      ensures Valid()
      ensures old(finished) ==> unchanged(this)
      ensures !old(finished) ==>
        && questions == old(questions) && currentIdx == old(currentIdx) && !finished
        && loading == old(loading) && error == old(error)
        && answers == old(answers) + [AnswerEntry(currentIdx, selected)]
        && (selected == questions[currentIdx].correctAnswer ==> score == old(score) + 1 && feedback == Correct)
        && (selected != questions[currentIdx].correctAnswer ==> score == old(score) && feedback == Wrong)
    {
      if finished {
        return;
      }
      var isCorrect := selected == questions[currentIdx].correctAnswer;
      if isCorrect {
        score := score + 1;
        feedback := Correct;
      } else {
        feedback := Wrong;
      }
      ghost var entry := AnswerEntry(currentIdx, selected);
      assert (answers + [entry])[..|answers|] == answers;
      answers := answers + [entry];
    }

    /** The body of the timer `handleAnswer` schedules: the feedback is
        cleared, then the session finishes on the last question and moves
        to the next one otherwise. */
    method Advance()
      requires Valid() && !loading && |questions| > 0
      modifies this
      ensures Valid()
      ensures feedback == NoFeedback
      ensures old(currentIdx) + 1 == |questions| ==> finished && currentIdx == old(currentIdx)
      ensures old(currentIdx) + 1 < |questions| ==> !finished && currentIdx == old(currentIdx) + 1
      ensures questions == old(questions) && score == old(score) && answers == old(answers)
      ensures loading == old(loading) && error == old(error)
    {
      feedback := NoFeedback;
      if currentIdx + 1 == |questions| {
        finished := true;
      } else {
        currentIdx := currentIdx + 1;
      }
    }

    /** What the component renders. Past the spinner, the error panel and the
        results, it indexes the question list, which faults on an empty list. */
    function View(): (s: Screen)
      reads this
      requires Valid()
      requires loading || error != "" || finished || |questions| > 0
      ensures s.Spinner? <==> loading
      ensures s.ErrorPanel? <==> !loading && error != ""
      ensures s.ErrorPanel? ==> s.message == error
      ensures s.Results? <==> !loading && error == "" && finished
      ensures s.Results? ==> s.score == score && s.total == |questions|
      ensures s.Asking? ==>
        && s.number == currentIdx + 1
        && 1 <= s.number <= s.total && s.total == |questions| && s.score == score
        && s.question == questions[s.number - 1] && s.background == BackgroundClass(feedback)
    {
      if loading then Spinner
      else if error != "" then ErrorPanel(error)
      else if finished then Results(score, |questions|)
      else Asking(currentIdx + 1, |questions|, questions[currentIdx], score, BackgroundClass(feedback))
    }
  }

  /** The scenario of a three-question arithmetic quiz answered "4", "6",
      "1": two answers are right, and the results show 2 of 3, or 67%. */
  method ArithmeticScenario()
  {
    var q1 := QuestionRecord("2+2?", ["3", "4", "5", "6"], "4");
    var q2 := QuestionRecord("3+3?", ["5", "6", "7", "8"], "6");
    var q3 := QuestionRecord("5-2?", ["1", "2", "3", "4"], "3");
    var session := new QuizSession();
    session.Start();
    session.Resolve(Questions([q1, q2, q3]));
    session.Answer("4");
    session.Advance();
    session.Answer("6");
    session.Advance();
    session.Answer("1");
    assert session.feedback == Wrong;
    session.Advance();
    assert session.View() == Results(2, 3);
    ResultView.TwoOfThree();
    assert ResultView.Percent(Some(session.score), Some(|session.questions|)) == 67;
  }
}
