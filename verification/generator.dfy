/**
 * The question generator of the quiz page: the error mapping of the
 * chat-completion response and the extraction of a JSON array from the
 * model's free text (`fetchAIQuestions` in src/components/Quiz.jsx).
 * The HTTP exchange itself is abstracted into `Response`, and `JSON.parse`
 * into a function parameter that either yields questions or fails.
 */
module Generator {
  import opened Wrappers

  /** One element of the parsed array: `question`, `options`, `correct_answer`. */
  datatype QuestionRecord = QuestionRecord(question: string, options: seq<string>, correctAnswer: string)

  /** The endpoint's answer. A non-ok status carries the `error` field of its
      body (None when the body is not JSON or has no such field); an ok status
      carries `choices[0].message.content`. */
  datatype Response =
    | NotOk(errorField: Option<string>)
    | Ok(content: string)

  /** What `fetchAIQuestions` resolves to, or the message of the Error it throws. */
  datatype FetchResult =
    | Questions(questions: seq<QuestionRecord>)
    | Failure(message: string)

  const FetchFailedMessage: string := "Failed to fetch questions from Groq AI."
  const ParseFailedMessage: string := "Failed to parse Groq AI response JSON."

  // ---------------------------------------------------------------------------
  // The pattern /\[[\s\S]*\]/, stated as regular-expression semantics.
  // ---------------------------------------------------------------------------

  /** content[lo..hi] matches the pattern: a '[', any characters, a ']'. */
  ghost predicate MatchesAt(content: string, lo: int, hi: int)
  {
    0 <= lo && lo + 2 <= hi <= |content| && content[lo] == '[' && content[hi - 1] == ']'
  }

  /** content[lo..hi] is the match `String.prototype.match` reports: it starts
      leftmost, and among the matches starting there it is the longest (the
      star is greedy). */
  ghost predicate LeftmostLongest(content: string, lo: int, hi: int)
  {
    && MatchesAt(content, lo, hi)
    && forall lo', hi' :: MatchesAt(content, lo', hi') ==> lo <= lo' && (lo' == lo ==> hi' <= hi)
  }

  /** Some '[' stands before some ']'. */
  ghost predicate HasBracketPair(content: string)
  {
    exists i, j :: 0 <= i < j < |content| && content[i] == '[' && content[j] == ']'
  }

  // ---------------------------------------------------------------------------
  // The scan that computes the match.
  // ---------------------------------------------------------------------------

  /** Index of the first occurrence of c. */
  function FirstIndex(s: string, c: char): (r: Option<nat>)
    ensures r.None? <==> c !in s
    ensures r.Some? ==> r.value < |s| && s[r.value] == c && c !in s[..r.value]
  {
    if |s| == 0 then None
    else if s[0] == c then Some(0)
    else
      assert s == [s[0]] + s[1..];
      match FirstIndex(s[1..], c)
      case None => None
      case Some(k) =>
        assert s[..k + 1] == [s[0]] + s[1..][..k];
        Some(k + 1)
  }

  /** Index of the last occurrence of c. */
  function LastIndex(s: string, c: char): (r: Option<nat>)
    ensures r.None? <==> c !in s
    ensures r.Some? ==> r.value < |s| && s[r.value] == c && c !in s[r.value + 1..]
  {
    if |s| == 0 then None
    else if s[|s| - 1] == c then Some(|s| - 1)
    else
      assert s == s[..|s| - 1] + [s[|s| - 1]];
      match LastIndex(s[..|s| - 1], c)
      case None => None
      case Some(k) =>
        assert s[k + 1..] == s[..|s| - 1][k + 1..] + [s[|s| - 1]];
        Some(k)
  }

  /** `content.match(/\[[\s\S]*\]/)`: the text from the first '[' to the last
      ']', or no match. */
  function MatchArray(content: string): (r: Option<string>)
    ensures r.Some? <==> HasBracketPair(content)
    ensures r.Some? ==> |r.value| >= 2 && r.value[0] == '[' && r.value[|r.value| - 1] == ']'
  {
    match FirstIndex(content, '[')
    case None => None
    case Some(lo) =>
      match LastIndex(content, ']')
      case None => None
      case Some(hi) =>
        if lo < hi then Some(content[lo..hi + 1])
        else
          assert !HasBracketPair(content) by {
            forall i, j | 0 <= i < j < |content| && content[i] == '['
              ensures content[j] != ']'
            {
              if j > hi { assert content[hi + 1..][j - hi - 1] == content[j]; }
            }
          }
          None
  }

  /** The scan agrees with the pattern's semantics: no match exactly when no
      substring matches, and otherwise the leftmost longest one. */
  lemma {:induction false} MatchArrayIsLeftmostLongest(content: string)
    ensures MatchArray(content).None? <==> forall lo, hi :: !MatchesAt(content, lo, hi)
    ensures MatchArray(content).Some? ==>
      exists lo, hi :: LeftmostLongest(content, lo, hi) && MatchArray(content).value == content[lo..hi]
  {
    if MatchArray(content).Some? {
      var lo := FirstIndex(content, '[').value;
      var hi := LastIndex(content, ']').value;
      assert MatchesAt(content, lo, hi + 1);
      forall lo', hi' | MatchesAt(content, lo', hi')
        ensures lo <= lo' && (lo' == lo ==> hi' <= hi + 1)
      {
      }
      assert LeftmostLongest(content, lo, hi + 1);
    } else {
      forall lo, hi | MatchesAt(content, lo, hi)
        ensures false
      {
      }
    }
  }

  // ---------------------------------------------------------------------------
  // The response mapping of fetchAIQuestions.
  // ---------------------------------------------------------------------------

  /** The outcome of one generation call, given the endpoint's response and
      the behaviour of `JSON.parse` on the extracted text. */
  function FetchQuestions(response: Response, parse: string -> Option<seq<QuestionRecord>>): (r: FetchResult)
    ensures r.Failure? ==> r.message != ""
    ensures response.NotOk? ==> r.Failure?
    ensures response.NotOk? && response.errorField.Some? && response.errorField.value != "" ==>
      r.message == response.errorField.value
    ensures response.NotOk? && (response.errorField.None? || response.errorField.value == "") ==>
      r.message == FetchFailedMessage
    ensures response.Ok? && r.Failure? ==> r.message == ParseFailedMessage
    ensures response.Ok? ==>
      (r.Questions? <==> MatchArray(response.content).Some? && parse(MatchArray(response.content).value).Some?)
    ensures response.Ok? && r.Questions? ==> parse(MatchArray(response.content).value) == Some(r.questions)
  {
    match response
    case NotOk(field) =>
      // `if (errorJson.error)`: an empty string is falsy and keeps the generic text.
      Failure(if field.Some? && field.value != "" then field.value else FetchFailedMessage)
    case Ok(content) =>
      match MatchArray(content)
      case None => Failure(ParseFailedMessage)
      case Some(span) =>
        match parse(span)
        case None => Failure(ParseFailedMessage)
        case Some(questions) => Questions(questions)
  }

  /** Content without a '[' before a ']' fails with the single parse message,
      whatever the parser would have done. */
  lemma UnbracketedContentFails(content: string, parse: string -> Option<seq<QuestionRecord>>)
    requires !HasBracketPair(content)
    ensures FetchQuestions(Ok(content), parse) == Failure(ParseFailedMessage)
  {
  }
}
