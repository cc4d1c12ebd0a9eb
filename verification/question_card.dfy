/**
 * The answer card of src/components/Question.jsx: the once-only selection
 * guard, its reset when the question changes, and the style each option
 * button gets.
 */
module QuestionCard {
  import opened Wrappers

  /** The four class strings `getButtonClass` chooses between. */
  datatype ButtonStyle =
    | Neutral      // not answered yet: every option looks the same
    | Highlighted  // the correct answer, once answered
    | MarkedWrong  // the selected option, when it is not the correct answer
    | Greyed       // every other option, once answered

  /** `getButtonClass(option)` over the card's state. */
  function ButtonClass(answered: bool, selectedOption: Option<string>, correctAnswer: string, option: string): (r: ButtonStyle)
    ensures !answered <==> r == Neutral
    ensures answered ==> (r == Highlighted <==> option == correctAnswer)
    ensures answered ==> (r == MarkedWrong <==> option != correctAnswer && selectedOption == Some(option))
  {
    if !answered then Neutral
    else if option == correctAnswer then Highlighted
    else if selectedOption == Some(option) && option != correctAnswer then MarkedWrong
    else Greyed
  }

  /** Number of buttons of `options.map(...)` rendered with the given style. */
  function StyleCount(answered: bool, selectedOption: Option<string>, correctAnswer: string,
                      options: seq<string>, style: ButtonStyle): (n: nat)
    ensures n <= |options|
  {
    if options == [] then 0
    else
      (if ButtonClass(answered, selectedOption, correctAnswer, options[0]) == style then 1 else 0)
      + StyleCount(answered, selectedOption, correctAnswer, options[1..], style)
  }

  predicate Distinct(options: seq<string>)
  {
    forall i, j :: 0 <= i < j < |options| ==> options[i] != options[j]
  }

  /** Before an answer, every button is neutral. */
  lemma {:induction false} UnansweredAllNeutral(selectedOption: Option<string>, correctAnswer: string, options: seq<string>)
    ensures StyleCount(false, selectedOption, correctAnswer, options, Neutral) == |options|
  {
    if options != [] {
      UnansweredAllNeutral(selectedOption, correctAnswer, options[1..]);
    }
  }

  /** After an answer over distinct options, exactly the correct answer is
      highlighted, and one button is marked wrong exactly when the selected
      option is a listed option other than the correct answer. */
  lemma {:induction false} AnsweredStyleCounts(selectedOption: Option<string>, correctAnswer: string, options: seq<string>)
    requires Distinct(options)
    ensures StyleCount(true, selectedOption, correctAnswer, options, Highlighted)
         == (if correctAnswer in options then 1 else 0)
    ensures StyleCount(true, selectedOption, correctAnswer, options, MarkedWrong)
         == (if selectedOption.Some? && selectedOption.value in options && selectedOption.value != correctAnswer then 1 else 0)
  {
    if options != [] {
      var rest := options[1..];
      assert Distinct(rest) by {
        forall i, j | 0 <= i < j < |rest| ensures rest[i] != rest[j] {
          assert rest[i] == options[i + 1] && rest[j] == options[j + 1];
        }
      }
      assert options[0] !in rest by {
        forall j | 0 <= j < |rest| ensures rest[j] != options[0] {
          assert rest[j] == options[j + 1];
        }
      }
      assert options == [options[0]] + rest;
      AnsweredStyleCounts(selectedOption, correctAnswer, rest);
    }
  }

  class AnswerCard {
    /** The `question` and `correctAnswer` props of the current render. */
    var question: string
    var correctAnswer: string
    var selectedOption: Option<string>
    var answered: bool
    var isCorrect: Option<bool>
    /** `onAnswer` calls scheduled for the current question. */
    ghost var notifications: nat

    ghost predicate Valid()
      reads this
    {
      && (answered <==> selectedOption.Some?)
      && (answered <==> isCorrect.Some?)
      && notifications == (if answered then 1 else 0)
    }

    /** Mount: the `useState` initial values. */
    constructor (question: string, correctAnswer: string)
      ensures Valid()
      ensures this.question == question && this.correctAnswer == correctAnswer
      ensures selectedOption == None && !answered && isCorrect == None && notifications == 0
    {
      this.question := question;
      this.correctAnswer := correctAnswer;
      selectedOption := None;
      answered := false;
      isCorrect := None;
      notifications := 0;
    }

    /** A render with new props. The reset effect depends on the question
        text only: it runs exactly when that text differs from the last one. */
    method ReceiveProps(question: string, correctAnswer: string)
      requires Valid()
      modifies this
      ensures Valid()
      ensures this.question == question && this.correctAnswer == correctAnswer
      ensures question != old(this.question) ==>
        selectedOption == None && !answered && isCorrect == None && notifications == 0
      ensures question == old(this.question) ==>
        && selectedOption == old(selectedOption) && answered == old(answered)
        && isCorrect == old(isCorrect) && notifications == old(notifications)
    {
      var changed := question != this.question;
      this.question := question;
      this.correctAnswer := correctAnswer;
      if changed {
        selectedOption := None;
        answered := false;
        isCorrect := None;
        notifications := 0;
      }
    }

    /** `handleClick(option)`: ignored once answered; the first click records
        the option and whether it is correct, and schedules `onAnswer(option)`,
        returned here as `notify`. */
    method Click(option: string) returns (notify: Option<string>)
      requires Valid()
      modifies this
      ensures Valid()
      ensures old(answered) ==> notify == None && unchanged(this)
      ensures !old(answered) ==>
        && notify == Some(option) && old(notifications) == 0 && notifications == 1
        && selectedOption == Some(option) && answered && isCorrect == Some(option == correctAnswer)
        && question == old(question) && correctAnswer == old(correctAnswer)
    {
      if answered {
        return None;
      }
      selectedOption := Some(option);
      answered := true;
      isCorrect := Some(option == correctAnswer);
      notifications := notifications + 1;
      notify := Some(option);
    }
  }
}
