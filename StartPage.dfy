/**
 * The intake dialog of src/components/StartPage.jsx: a transcript of
 * questions and answers that grows by one answer per submission and, while
 * it is shorter than six entries, by the next question fetched from the
 * backend; at six entries the answers are handed to the book page.
 */
module Intake {
  import opened Wrappers

  /** A transcript entry, tagged by its `type` ("question" or "answer"). */
  datatype Message = Question(content: string) | Answer(content: string)

  const InitialQuestion: string :=
    "Hey there, before starting to read the book, do you want to tell me something about yourself?"
  const SubmitErrorMessage: string := "An error occurred. Please try again."

  /** The `qa` record passed to the book page on navigation. */
  datatype Qa = Qa(q1: string, a1: string, q2: string, a2: string, q3: string, a3: string)

  /** The body of POST /asknextquestion. */
  datatype NextQuestionRequest = NextQuestionRequest(answer: string, questionNumber: nat)

  /** The outcome of that request: the response text, or a non-ok status or rejected fetch. */
  datatype Reply = Replied(text: string) | RequestFailed

  /** The characters `String.prototype.trim` removes: white space and line terminators. */
  predicate IsJsWhitespace(c: char)
  {
    || c == '\t' || c == '\n' || c == '\U{B}' || c == '\U{C}' || c == '\r' || c == ' '
    || c == '\U{A0}' || c == '\U{1680}' || ('\U{2000}' <= c <= '\U{200A}')
    || c == '\U{2028}' || c == '\U{2029}' || c == '\U{202F}' || c == '\U{205F}'
    || c == '\U{3000}' || c == '\U{FEFF}'
  }

  /** `!s.trim()`: the input is empty or white space only. */
  predicate IsBlank(s: string)
  {
    forall i :: 0 <= i < |s| ==> IsJsWhitespace(s[i])
  }

  /** The page state that `handleSubmit` reads and writes; `navigation` is the `navigate` call. */
  datatype Intake = Intake(
    messages: seq<Message>,
    userInput: string,
    isWaiting: bool,
    error: Option<string>,
    navigation: Option<Qa>)

  /** The `useState` initial values. */
  function Initial(): Intake
  {
    Intake([Question(InitialQuestion)], "", false, None, None)
  }

  /** The textarea's `onChange`. */
  function Type(s: Intake, text: string): Intake
  {
    s.(userInput := text)
  }

  /** `Math.floor(length / 2)` for a transcript length. */
  function QuestionNumber(length: nat): nat
  {
    length / 2
  }

  /** The `qa` record: the first five entries, and the untrimmed input as the third answer. */
  function ProjectQa(messages: seq<Message>, input: string): Qa
    requires |messages| >= 5
  {
    Qa(messages[0].content, messages[1].content, messages[2].content,
       messages[3].content, messages[4].content, input)
  }

  /** The new state after a submission, and the request it sent if any. */
  datatype Step = Step(state: Intake, request: Option<NextQuestionRequest>)

  /**
   * `handleSubmit`, with `reply` standing for the backend's answer to the
   * request it sends (unused when no request is sent).
   */
  function Submit(s: Intake, reply: Reply): (r: Step)
    // blank input: return at once, nothing changes
    ensures IsBlank(s.userInput) ==> r == Step(s, None)
    // otherwise one answer with the untrimmed input is appended, the input is
    // cleared and the dialog is no longer waiting, on every path
    ensures !IsBlank(s.userInput) ==>
      && |r.state.messages| > |s.messages|
      && r.state.messages[..|s.messages| + 1] == s.messages + [Answer(s.userInput)]
      && r.state.userInput == "" && !r.state.isWaiting
    // a request goes out exactly while the transcript is shorter than six
    ensures !IsBlank(s.userInput) ==>
      (r.request.Some? <==> |s.messages| + 1 < 6)
    ensures r.request.Some? ==>
      r.request.value == NextQuestionRequest(s.userInput, QuestionNumber(|s.messages| + 1))
    // a successful request appends exactly the returned question
    ensures r.request.Some? && reply.Replied? ==>
      r.state.messages == s.messages + [Answer(s.userInput), Question(reply.text)] &&
      r.state.error == None && r.state.navigation == s.navigation
    // a failed one keeps the answer, adds no question and sets the error
    ensures r.request.Some? && reply.RequestFailed? ==>
      r.state.messages == s.messages + [Answer(s.userInput)] &&
      r.state.error == Some(SubmitErrorMessage) && r.state.navigation == s.navigation
    // at six entries the page navigates with the projected answers
    ensures !IsBlank(s.userInput) && r.request.None? ==>
      r.state.messages == s.messages + [Answer(s.userInput)] && r.state.error == None &&
      r.state.navigation == Some(ProjectQa(s.messages, s.userInput))
  {
    if IsBlank(s.userInput) then Step(s, None)
    else
      var input := s.userInput;
      var updated := s.messages + [Answer(input)];
      var sent := s.(messages := updated, userInput := "", isWaiting := false, error := None);
      if |updated| < 6 then
        var request := NextQuestionRequest(input, QuestionNumber(|updated|));
        match reply
        case Replied(q) => Step(sent.(messages := updated + [Question(q)]), Some(request))
        case RequestFailed => Step(sent.(error := Some(SubmitErrorMessage)), Some(request))
      else
        Step(sent.(navigation := Some(ProjectQa(s.messages, input))), None)
  }

  /** Questions at the even positions, answers at the odd ones. */
  predicate Alternates(messages: seq<Message>)
  {
    forall i :: 0 <= i < |messages| ==> (messages[i].Question? <==> i % 2 == 0)
  }

  function CountAnswers(messages: seq<Message>): nat
    decreases |messages|
  {
    if messages == [] then 0
    else CountAnswers(messages[..|messages| - 1]) + (if messages[|messages| - 1].Answer? then 1 else 0)
  }

  lemma {:induction false} CountAnswersAlternating(messages: seq<Message>)
    requires Alternates(messages)
    ensures CountAnswers(messages) == |messages| / 2
    decreases |messages|
  {
    if messages != [] {
      var front := messages[..|messages| - 1];
      assert Alternates(front) by {
        forall i | 0 <= i < |front| ensures front[i].Question? <==> i % 2 == 0 {
          assert front[i] == messages[i];
        }
      }
      CountAnswersAlternating(front);
    }
  }

  /**
   * On an alternating transcript the `questionNumber` sent is the number of
   * answers given so far, this one included.
   */
  lemma QuestionNumberCountsAnswers(s: Intake, reply: Reply)
    requires Alternates(s.messages) && |s.messages| % 2 == 1
    requires Submit(s, reply).request.Some?
    ensures Submit(s, reply).request.value.questionNumber
         == CountAnswers(s.messages + [Answer(s.userInput)])
  {
    var updated := s.messages + [Answer(s.userInput)];
    assert Alternates(updated) by {
      forall i | 0 <= i < |updated| ensures updated[i].Question? <==> i % 2 == 0 {
        if i < |s.messages| { assert updated[i] == s.messages[i]; }
      }
    }
    CountAnswersAlternating(updated);
  }

  /**
   * A successful submission on an alternating transcript of odd length
   * keeps it alternating and of odd length: one answer, then one question.
   */
  lemma SuccessKeepsAlternation(s: Intake, reply: Reply)
    requires Alternates(s.messages) && |s.messages| % 2 == 1
    requires reply.Replied? && Submit(s, reply).request.Some?
    ensures Alternates(Submit(s, reply).state.messages)
    ensures |Submit(s, reply).state.messages| == |s.messages| + 2
  {
    var m := Submit(s, reply).state.messages;
    forall i | 0 <= i < |m| ensures m[i].Question? <==> i % 2 == 0 {
      if i < |s.messages| { assert m[i] == s.messages[i]; }
    }
  }

  /**
   * Starting from the single initial question with every request
   * succeeding: requests go out after the first and second answers with
   * question numbers 1 and 2, the third answer sends none and navigates, and
   * the transcript alternates question and answer.
   */
  lemma HappyPath(a1: string, a2: string, a3: string, q2: string, q3: string, last: Reply)
    requires !IsBlank(a1) && !IsBlank(a2) && !IsBlank(a3)
    ensures var s1 := Submit(Type(Initial(), a1), Replied(q2));
            var s2 := Submit(Type(s1.state, a2), Replied(q3));
            var s3 := Submit(Type(s2.state, a3), last);
            && s1.request == Some(NextQuestionRequest(a1, 1))
            && s2.request == Some(NextQuestionRequest(a2, 2))
            && s3.request == None
            && s3.state.messages == [Question(InitialQuestion), Answer(a1), Question(q2),
                                     Answer(a2), Question(q3), Answer(a3)]
            && Alternates(s3.state.messages)
            && s3.state.navigation == Some(Qa(InitialQuestion, a1, q2, a2, q3, a3))
            && s3.state.error == None && !s3.state.isWaiting
  {
  }

  /**
   * A failed request leaves the answer without a question after it, so a
   * retry shifts the transcript: the second answer is sent as question
   * number 1 again, and the `qa` record carries an answer in `q2`.
   */
  lemma RetryAfterFailureShiftsTranscript(x: string, y: string, z: string, w: string,
                                          q: string, q': string, last: Reply)
    requires !IsBlank(x) && !IsBlank(y) && !IsBlank(z) && !IsBlank(w)
    ensures var s1 := Submit(Type(Initial(), x), RequestFailed);
            var s2 := Submit(Type(s1.state, y), Replied(q));
            var s3 := Submit(Type(s2.state, z), Replied(q'));
            var s4 := Submit(Type(s3.state, w), last);
            && s1.state.error == Some(SubmitErrorMessage)
            && s2.request == Some(NextQuestionRequest(y, 1))
            && s3.request == Some(NextQuestionRequest(z, 2))
            && s4.request == None
            && s4.state.navigation == Some(Qa(InitialQuestion, x, y, q, z, w))
  {
  }

  /** The intake page as an object whose handlers update its fields. */
  class StartPage {
    var messages: seq<Message>
    var userInput: string
    var isWaiting: bool
    var error: Option<string>
    var navigation: Option<Qa>

    function State(): (s: Intake)
      reads this
      ensures s.messages == messages && s.userInput == userInput && s.isWaiting == isWaiting
      ensures s.error == error && s.navigation == navigation
    {
      Intake(messages, userInput, isWaiting, error, navigation)
    }

    constructor ()
      ensures State() == Initial()
    {
      messages := [Question(InitialQuestion)];
      userInput := "";
      isWaiting := false;
      error := None;
      navigation := None;
    }

    /** `handleInputChange`. */
    method HandleInputChange(text: string)
      modifies this`userInput
      ensures State() == Type(old(State()), text)
    {
      userInput := text;
    }

    /**
     * `handleSubmit`: the setters run in program order; the request is sent
     * while `isWaiting` is set, and the `finally` clears it on both paths.
     */
    method HandleSubmit(reply: Reply) returns (request: Option<NextQuestionRequest>)
      modifies this
      ensures Step(State(), request) == Submit(old(State()), reply)
    {
      if IsBlank(userInput) {
        return None;
      }
      isWaiting := true;
      error := None;
      var previous := messages;
      var input := userInput;
      var updated := previous + [Answer(input)];
      messages := updated;
      userInput := "";
      if |updated| < 6 {
        request := Some(NextQuestionRequest(input, QuestionNumber(|updated|)));
        match reply
        case Replied(q) =>
          messages := updated + [Question(q)];
        case RequestFailed =>
          error := Some(SubmitErrorMessage);
      } else {
        request := None;
        navigation := Some(ProjectQa(previous, input));
      }
      isWaiting := false;
    }
  }
}
