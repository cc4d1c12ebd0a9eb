/**
 * The settings form of src/components/QuizSetting.jsx: its option sets and
 * initial values, the suggestion buttons, the enable condition of the start
 * button and `startQuiz`, which stores the key and hands the settings on.
 */
module SettingsForm {
  import opened Wrappers

  const QuestionCounts: seq<int> := [10, 15, 20, 30]
  const Difficulties: seq<string> := ["easy", "medium", "hard"]
  const InitialCount: int := 5
  const InitialDifficulty: string := "easy"
  const SuggestedTopics: seq<string> := [
    "General Knowledge", "Science", "Mathematics", "History", "Geography",
    "Computer Basics", "Artificial Intelligence", "Machine Learning",
    "JavaScript", "Python", "React"
  ]
  /** The local-storage entry the key is written to. */
  const ApiKeyEntry: string := "groq_api_key"

  /** What `onStart` receives; the key travels in the field `topic2`. */
  datatype Settings = Settings(topic: string, numQuestions: int, difficulty: string, topic2: string)

  // ---------------------------------------------------------------------------
  // String.prototype.trim
  // ---------------------------------------------------------------------------

  /** The characters `trim` removes: ECMAScript's WhiteSpace (tab, vertical
      tab, form feed, space, no-break space, the byte-order mark and the
      other space separators of Unicode category Zs) and LineTerminator. */
  predicate IsJsWhitespace(c: char)
  {
    var n := c as int;
    || n == 0x09 || n == 0x0B || n == 0x0C || n == 0x20 || n == 0xA0 || n == 0xFEFF
    || n == 0x1680 || (0x2000 <= n <= 0x200A) || n == 0x202F || n == 0x205F || n == 0x3000
    || n == 0x0A || n == 0x0D || n == 0x2028 || n == 0x2029
  }

  predicate AllWhitespace(s: string)
  {
    forall i :: 0 <= i < |s| ==> IsJsWhitespace(s[i])
  }

  /** s without its leading whitespace. */
  function TrimStart(s: string): (r: string)
    ensures |r| <= |s| && r == s[|s| - |r|..]
    ensures AllWhitespace(s[..|s| - |r|])
    ensures r != [] ==> !IsJsWhitespace(r[0])
  {
    if s != [] && IsJsWhitespace(s[0]) then
      var r := TrimStart(s[1..]);
      assert s[..|s| - |r|] == [s[0]] + s[1..][..|s[1..]| - |r|];
      r
    else s
  }

  /** s without its trailing whitespace. */
  function TrimEnd(s: string): (r: string)
    ensures |r| <= |s| && r == s[..|r|]
    ensures AllWhitespace(s[|r|..])
    ensures r != [] ==> !IsJsWhitespace(r[|r| - 1])
  {
    if s != [] && IsJsWhitespace(s[|s| - 1]) then
      var r := TrimEnd(s[..|s| - 1]);
      assert s[|r|..] == s[..|s| - 1][|r|..] + [s[|s| - 1]];
      r
    else s
  }

  /** Cutting a whitespace prefix off s and then a whitespace suffix off the
      rest leaves a slice of s; the slice is empty exactly when s is all
      whitespace, given that the rest does not start with whitespace. */
  lemma TrimmedSlice(s: string, t: string, r: string)
    requires |r| <= |t| <= |s| && t == s[|s| - |t|..] && AllWhitespace(s[..|s| - |t|])
    requires t != [] ==> !IsJsWhitespace(t[0])
    requires r == t[..|r|] && AllWhitespace(t[|r|..])
    ensures r == [] <==> AllWhitespace(s)
    ensures r == s[|s| - |t|..|s| - |t| + |r|]
    ensures AllWhitespace(s[|s| - |t| + |r|..])
  {
    var i := |s| - |t|;
    assert s[i + |r|..] == t[|r|..];
    if r == [] {
      assert t == [] by { assert t[|r|..] == t; }
      assert s[..i] == s;
    } else {
      assert t[0] == s[i];
    }
  }

  /** `s.trim()`. */
  function Trim(s: string): (r: string)
    ensures |r| <= |s|
    ensures r == [] <==> AllWhitespace(s)
    ensures r != [] ==> !IsJsWhitespace(r[0]) && !IsJsWhitespace(r[|r| - 1])
  {
    var t := TrimStart(s);
    var r := TrimEnd(t);
    TrimmedSlice(s, t, r);
    r
  }

  /** `trim` removes nothing but surrounding whitespace: its result is a
      slice of the input with only whitespace before and after it. */
  lemma TrimIsSlice(s: string)
    ensures exists i, j ::
              0 <= i <= j <= |s| && Trim(s) == s[i..j] && AllWhitespace(s[..i]) && AllWhitespace(s[j..])
  {
    var t := TrimStart(s);
    var r := TrimEnd(t);
    assert Trim(s) == r;
    TrimmedSlice(s, t, r);
    var i, j := |s| - |t|, |s| - |t| + |r|;
    assert 0 <= i <= j <= |s| && r == s[i..j] && AllWhitespace(s[..i]) && AllWhitespace(s[j..]);
  }

  /** Trimming twice is trimming once. */
  lemma TrimIdempotent(s: string)
    ensures Trim(Trim(s)) == Trim(s)
  {
    var r := Trim(s);
    if r != [] {
      assert !IsJsWhitespace(r[0]) && !IsJsWhitespace(r[|r| - 1]);
      assert TrimStart(r) == r;
      assert TrimEnd(r) == r;
    }
  }

  // ---------------------------------------------------------------------------
  // The start button and the form.
  // ---------------------------------------------------------------------------

  /** The start button's enable condition: `disabled={!topic || loading || !topic2}`. */
  function StartEnabled(topic: string, topic2: string, loading: bool): (enabled: bool)
    ensures enabled <==> topic != "" && topic2 != "" && !loading
  {
    !(topic == "" || loading || topic2 == "")
  }

  /** The button check is looser than the trim check of `startQuiz`: every
      non-empty whitespace-only topic enables the button and still starts
      nothing. */
  lemma BlankTopicPassesButton(topic: string, topic2: string)
    requires topic != "" && AllWhitespace(topic) && topic2 != ""
    ensures StartEnabled(topic, topic2, false) && Trim(topic) == ""
  {
  }

  /** Such topics exist: a single space is one. */
  lemma SpaceIsBlankTopic()
    ensures " " != "" && AllWhitespace(" ") && Trim(" ") == ""
  {
  }

  /** Every topic `startQuiz` accepts also enables the button, given a key
      and no start in progress. */
  lemma AcceptedTopicEnablesButton(topic: string, topic2: string)
    requires Trim(topic) != "" && topic2 != ""
    ensures StartEnabled(topic, topic2, false)
  {
  }

  /** The suggested topics carry no surrounding whitespace: a suggestion is
      started exactly as shown. */
  lemma {:induction false} SuggestionsStartAsShown()
    ensures forall k :: 0 <= k < |SuggestedTopics| ==>
      Trim(SuggestedTopics[k]) == SuggestedTopics[k] != ""
  {
    forall k | 0 <= k < |SuggestedTopics|
      ensures Trim(SuggestedTopics[k]) == SuggestedTopics[k] != ""
    {
      var t := SuggestedTopics[k];
      assert t != [] && !IsJsWhitespace(t[0]) && !IsJsWhitespace(t[|t| - 1]);
      assert TrimStart(t) == t;
      assert TrimEnd(t) == t;
    }
  }

  /** The difficulty starts at one of its choices; the count starts at 5,
      which none of the count choices offers. */
  lemma InitialChoices()
    ensures InitialDifficulty in Difficulties && Difficulties[0] == InitialDifficulty
    ensures InitialCount !in QuestionCounts
  {
  }

  class QuizSettingsForm {
    var topic: string
    var topic2: string
    var numQuestions: int
    var difficulty: string
    var loading: bool
    /** The browser's local storage, as far as this form writes it. */
    var store: map<string, string>

    /** Mount: the `useState` initial values. */
    constructor (store: map<string, string>)
      ensures topic == "" && topic2 == "" && numQuestions == InitialCount
      ensures difficulty == InitialDifficulty && !loading && this.store == store
    {
      topic := "";
      topic2 := "";
      numQuestions := InitialCount;
      difficulty := InitialDifficulty;
      loading := false;
      this.store := store;
    }

    /** `handleTopicClick(suggested)`. */
    method SelectTopic(suggested: string)
      modifies this`topic
      ensures topic == suggested
    {
      topic := suggested;
    }

    /** `startQuiz`: the key is stored whatever the topic; a topic that is
        blank after trimming starts nothing, any other sets `loading` and
        schedules `onStart` with the trimmed topic, returned here as
        `emitted`. */
    method StartQuiz() returns (emitted: Option<Settings>)
      modifies this`store, this`loading
      ensures store == old(store)[ApiKeyEntry := topic2]
      ensures emitted.Some? <==> Trim(topic) != ""
      ensures emitted.Some? ==>
        loading && emitted.value == Settings(Trim(topic), numQuestions, difficulty, topic2)
      ensures emitted.None? ==> loading == old(loading)
    {
      store := store[ApiKeyEntry := topic2];
      var trimmed := Trim(topic);
      if trimmed != "" {
        loading := true;
        emitted := Some(Settings(trimmed, numQuestions, difficulty, topic2));
      } else {
        emitted := None;
      }
    }
  }
}
