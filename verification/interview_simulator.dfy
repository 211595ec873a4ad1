/** The interview page: pick a role, fetch a question, type an answer, get
    feedback and a score. Each handler is one atomic step over the outcome
    of its request, which the model takes as an input. */
module InterviewSimulator {
  import opened Wrappers
  import opened Text
  import opened Browser

  const NoRoleAlert := "Please select a role first!"
  const BlankAnswerAlert := "Please enter your answer first!"
  const QuestionFailedAlert := "\U{26A0}\U{FE0F} Error generating question. Check backend connection or token."
  const FeedbackFailedAlert := "\U{26A0}\U{FE0F} Error getting feedback. Please re-login if session expired."

  /** `res.data` of a successful question request. */
  datatype QuestionPayload = QuestionPayload(question: string, sessionId: int)

  /** `res.data` of a successful evaluation: `score` is `None` when the
      server sent `null` or left it out. */
  datatype FeedbackPayload = FeedbackPayload(feedback: string, score: Option<int>)

  class Simulator {
    var role: string
    var sessionId: Option<int>
    var question: string
    var answer: string
    var feedback: string
    var score: Option<int>
    var loading: bool
    var mode: string

    /** Between handler steps nothing is in flight; the answer box and the
        feedback only exist once a question is shown, and a question is
        only ever shown together with the session id it came with. */
    predicate Valid()
      reads this
    {
      && !loading
      && (answer != "" ==> question != "")
      && (feedback != "" ==> question != "")
      && (score.Some? ==> question != "")
      && (question != "" ==> sessionId.Some?)
    }

    constructor ()
      ensures Valid()
      ensures role == "" && sessionId == None && question == "" && answer == ""
      ensures feedback == "" && score == None && !loading && mode == ""
    {
      role, sessionId, question, answer := "", None, "", "";
      feedback, score, loading, mode := "", None, false, "";
    }

    /** The role select's `onChange`: only `role` changes. */
    method SelectRole(r: string)
      requires Valid()
      modifies this`role
      ensures Valid()
      ensures role == r
    {
      role := r;
    }

    /** The answer box's `onChange`. The box is rendered only while a
        question is shown and nothing is loading. */
    method EditAnswer(a: string)
      requires Valid() && question != ""
      modifies this`answer
      ensures Valid()
      ensures answer == a
    {
      answer := a;
    }

    /** `generateQuestion`, given the outcome of the request and the value
        of the `access` key the page read when it rendered. */
    method GenerateQuestion(access: Option<string>, outcome: Outcome<QuestionPayload>)
      returns (effects: seq<Effect>)
      requires Valid()
      modifies this
      ensures Valid()
      // No role: an alert and nothing else, not even `loading` or `mode`.
      ensures old(role) == "" ==>
        && effects == [Alert(NoRoleAlert)]
        && role == old(role) && sessionId == old(sessionId) && question == old(question)
        && answer == old(answer) && feedback == old(feedback) && score == old(score)
        && loading == old(loading) && mode == old(mode)
      ensures old(role) != "" ==> role == old(role) && mode == "question" && !loading
      ensures old(role) != "" && outcome.Ok? ==>
        && effects == [Send(GenerateQuestionRequest(old(role), Bearer(access)))]
        && question == outcome.payload.question && sessionId == Some(outcome.payload.sessionId)
        && answer == "" && feedback == "" && score == None
      ensures old(role) != "" && outcome.Err? ==>
        && effects == [Send(GenerateQuestionRequest(old(role), Bearer(access))), Alert(QuestionFailedAlert)]
        && sessionId == old(sessionId) && question == old(question)
        && answer == old(answer) && feedback == old(feedback) && score == old(score)
    {
      if role == "" {
        return [Alert(NoRoleAlert)];
      }
      loading := true;
      mode := "question";
      effects := [Send(GenerateQuestionRequest(role, Bearer(access)))];
      if outcome.Ok? {
        question := outcome.payload.question;
        sessionId := Some(outcome.payload.sessionId);
        feedback := "";
        answer := "";
        score := None;
      } else {
        effects := effects + [Alert(QuestionFailedAlert)];
      }
      loading := false;
    }

    /** `evaluateAnswer`, given the outcome of the request and the value of
        the `access` key the page read when it rendered. */
    method EvaluateAnswer(access: Option<string>, outcome: Outcome<FeedbackPayload>)
      returns (effects: seq<Effect>)
      requires Valid()
      modifies this
      ensures Valid()
      // A blank answer: an alert and nothing else.
      ensures IsBlank(old(answer)) ==>
        && effects == [Alert(BlankAnswerAlert)]
        && role == old(role) && sessionId == old(sessionId) && question == old(question)
        && answer == old(answer) && feedback == old(feedback) && score == old(score)
        && loading == old(loading) && mode == old(mode)
      // Otherwise the request carries exactly the current session id,
      // question and answer, and the session id is one the server gave.
      ensures !IsBlank(old(answer)) ==>
        && |effects| >= 1
        && effects[0] == Send(EvaluateAnswerRequest(old(sessionId), old(question), old(answer), Bearer(access)))
        && old(sessionId).Some?
        && mode == "feedback" && !loading
        && role == old(role) && sessionId == old(sessionId)
        && question == old(question) && answer == old(answer)
      ensures !IsBlank(old(answer)) && outcome.Ok? ==>
        && |effects| == 1 && feedback == outcome.payload.feedback && score == outcome.payload.score
      ensures !IsBlank(old(answer)) && outcome.Err? ==>
        && effects[1..] == [Alert(FeedbackFailedAlert)]
        && feedback == old(feedback) && score == old(score)
    {
      if IsBlank(answer) {
        return [Alert(BlankAnswerAlert)];
      }
      assert answer != "";
      loading := true;
      mode := "feedback";
      effects := [Send(EvaluateAnswerRequest(sessionId, question, answer, Bearer(access)))];
      if outcome.Ok? {
        feedback := outcome.payload.feedback;
        score := outcome.payload.score;
      } else {
        effects := effects + [Alert(FeedbackFailedAlert)];
      }
      loading := false;
    }
  }
}
