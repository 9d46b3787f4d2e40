/** The three POST handlers of index.js. Each one is a method over Express's `res`
    (an `Exchange`) that runs the source's steps in order; the external capabilities
    come in as an `Env`. Beside each method stands the function that gives the effect
    trace it must produce, and the lemmas state what the source promises of that trace:
    validation before any work, exactly one response, a fixed message on every failure,
    the completion passed through verbatim, and for /review exactly one deletion of the
    upload, once a file has been accepted, whatever the try block settles to. */
module Handlers {
  import opened Effects
  import opened Prompts

  // Response bodies and the one message the handlers throw themselves.
  const NoFileMessage := "No resume file uploaded."
  const NoTextMessage := "Could not extract text from the PDF file."
  const ReviewFailedMessage := "Failed to process resume."
  const ChatbotMissingMessage := "Missing resume or query."
  const ChatbotFailedMessage := "Something went wrong with the chatbot."
  const InterviewMissingMessage := "Question and answer are required"
  const InterviewFailedMessage := "Failed to get feedback from AI."

  // The model each endpoint asks for.
  const ReviewModel := "gemini-2.5-flash-preview-05-20"
  const ChatbotModel := "gemini-2.5-flash-preview-05-20"
  const InterviewModel := "gemini-pro"

  // ---------------------------------------------------------------------------
  // The effect trace each handler produces
  // ---------------------------------------------------------------------------

  /** How a handler ends once its try block has settled: the completion is sent unchanged
      under `key` with status 200, or the error's message goes to the server log and the
      body carries only the endpoint's fixed `failure` message, with status 500. */
  function Settle(outcome: Outcome<string>, key: string, failure: string): (r: seq<Effect>)
    ensures r != [] && r[|r| - 1].Respond?
    ensures outcome.Ok? ==> r[|r| - 1] == Respond(200, Json(key, outcome.value))
    ensures outcome.Fail? ==>
      r[|r| - 1] == Respond(500, ErrorBody(failure)) && r[..|r| - 1] == [LogError(outcome.detail)]
  {
    match outcome
    case Ok(completion) => [Respond(200, Json(key, completion))]
    case Fail(detail) => [LogError(detail), Respond(500, ErrorBody(failure))]
  }

  /** The calls made inside the try block of /review, and how that block ends: with a
      completion, or with the message of the first error thrown. The read always comes
      first, every step is a call to a capability, and a completion is the model's
      answer to the third and last call. */
  function ReviewCalls(path: string, env: Env): (r: (seq<Effect>, Outcome<string>))
    ensures 1 <= |r.0| <= 3 && r.0[0] == ReadFile(path)
    ensures forall e :: e in r.0 ==> KindOf(e) == OracleCall
    ensures r.1.Ok? ==>
      |r.0| == 3 && r.0[2].Generate? && r.0[2].model == ReviewModel &&
      r.1 == env.generateContent(r.0[2].model, r.0[2].prompt)
  {
    match env.readFile(path)
    case Fail(detail) => ([ReadFile(path)], Fail(detail))
    case Ok(buffer) =>
      match env.parsePdf(buffer)
      case Fail(detail) => ([ReadFile(path), ParsePdf(buffer)], Fail(detail))
      case Ok(data) =>
        if Missing(data.text) then ([ReadFile(path), ParsePdf(buffer)], Fail(NoTextMessage))
        else
          var prompt := ReviewPrompt(data.text.value);
          ([ReadFile(path), ParsePdf(buffer), Generate(ReviewModel, prompt)],
           env.generateContent(ReviewModel, prompt))
  }

  /** POST /review: reject a request without a file; otherwise try, catch, and finally
      start deleting the upload. Without a file the trace is the 400 alone; with one it
      opens with the read of the upload and ends with a response and then its deletion. */
  function ReviewEffects(file: Option<UploadedFile>, env: Env): (t: seq<Effect>)
    ensures file.None? ==> t == [Respond(400, ErrorBody(NoFileMessage))]
    ensures file.Some? ==>
      |t| >= 3 && t[0] == ReadFile(file.value.path) &&
      t[|t| - 2].Respond? && t[|t| - 1] == Unlink(file.value.path)
  {
    match file
    case None => [Respond(400, ErrorBody(NoFileMessage))]
    case Some(f) =>
      var (calls, outcome) := ReviewCalls(f.path, env);
      calls + Settle(outcome, "feedback", ReviewFailedMessage) + [Unlink(f.path)]
  }

  /** POST /career/ask-chatbot. The trace ends with a response, and it opens with one
      exactly when the query is missing; otherwise it opens with the model call. */
  function ChatbotEffects(query: Option<string>, env: Env): (t: seq<Effect>)
    ensures t != [] && t[|t| - 1].Respond?
    ensures Missing(query) <==> t[0].Respond?
    ensures !Missing(query) ==> t[0] == Generate(ChatbotModel, ChatbotPrompt(query.value))
  {
    if Missing(query) then [Respond(400, ErrorBody(ChatbotMissingMessage))]
    else
      var prompt := ChatbotPrompt(query.value);
      [Generate(ChatbotModel, prompt)]
        + Settle(env.generateContent(ChatbotModel, prompt), "message", ChatbotFailedMessage)
  }

  /** POST /mock-interview. The trace ends with a response, and it opens with one
      exactly when the question or the answer is missing; otherwise it opens with the
      model call. */
  function InterviewEffects(question: Option<string>, answer: Option<string>, env: Env): (t: seq<Effect>)
    ensures t != [] && t[|t| - 1].Respond?
    ensures Missing(question) || Missing(answer) <==> t[0].Respond?
    ensures !Missing(question) && !Missing(answer) ==>
      t[0] == Generate(InterviewModel, InterviewPrompt(question.value, answer.value))
  {
    if Missing(question) || Missing(answer) then [Respond(400, ErrorBody(InterviewMissingMessage))]
    else
      var prompt := InterviewPrompt(question.value, answer.value);
      [Generate(InterviewModel, prompt)]
        + Settle(env.generateContent(InterviewModel, prompt), "feedback", InterviewFailedMessage)
  }

  // ---------------------------------------------------------------------------
  // The handlers
  // ---------------------------------------------------------------------------

  /** index.js:25-76. An error thrown in the try block leaves it through `break Try`
      with its message in `thrown`; the catch block runs when `thrown` holds one, and the
      finally block runs once a file is there and the try block has settled. */
  method Review(res: Exchange, file: Option<UploadedFile>, env: Env)
    requires res.statusCode == 200
    modifies res
    ensures res.trace == old(res.trace) + ReviewEffects(file, env)
    ensures var t := ReviewEffects(file, env);
      res.statusCode == if file.None? then t[0].status else t[|t| - 2].status
  {
    if file.None? {
      res.Status(400);
      res.Send(ErrorBody(NoFileMessage));
      return;
    }
    var filePath := file.value.path;
    var thrown: Option<string> := None;
    label Try: {
      res.Record(ReadFile(filePath));
      var read := env.readFile(filePath);
      if read.Fail? {
        thrown := Some(read.detail);
        break Try;
      }
      var pdfBuffer := read.value;
      res.Record(ParsePdf(pdfBuffer));
      var data := env.parsePdf(pdfBuffer);
      if data.Fail? {
        thrown := Some(data.detail);
        break Try;
      }
      var resumeText := data.value.text;
      if Missing(resumeText) {
        thrown := Some(NoTextMessage);
        break Try;
      }
      var prompt := ReviewPrompt(resumeText.value);
      res.Record(Generate(ReviewModel, prompt));
      var result := env.generateContent(ReviewModel, prompt);
      if result.Fail? {
        thrown := Some(result.detail);
        break Try;
      }
      res.Send(Json("feedback", result.value));
    }
    if thrown.Some? {
      res.Record(LogError(thrown.value));
      res.Status(500);
      res.Send(ErrorBody(ReviewFailedMessage));
    }
    res.Record(Unlink(filePath));
  }

  /** index.js:78-119. The validation sits inside the try block here; it cannot throw. */
  method AskChatbot(res: Exchange, query: Option<string>, env: Env)
    requires res.statusCode == 200
    modifies res
    ensures res.trace == old(res.trace) + ChatbotEffects(query, env)
    ensures var t := ChatbotEffects(query, env); res.statusCode == t[|t| - 1].status
  {
    var thrown: Option<string> := None;
    label Try: {
      if Missing(query) {
        res.Status(400);
        res.Send(ErrorBody(ChatbotMissingMessage));
        return;
      }
      var prompt := ChatbotPrompt(query.value);
      res.Record(Generate(ChatbotModel, prompt));
      var result := env.generateContent(ChatbotModel, prompt);
      if result.Fail? {
        thrown := Some(result.detail);
        break Try;
      }
      res.Status(200);
      res.Send(Json("message", result.value));
    }
    if thrown.Some? {
      res.Record(LogError(thrown.value));
      res.Status(500);
      res.Send(ErrorBody(ChatbotFailedMessage));
    }
  }

  /** index.js:121-150. The validation runs before the try block. */
  method MockInterview(res: Exchange, question: Option<string>, answer: Option<string>, env: Env)
    requires res.statusCode == 200
    modifies res
    ensures res.trace == old(res.trace) + InterviewEffects(question, answer, env)
    ensures var t := InterviewEffects(question, answer, env); res.statusCode == t[|t| - 1].status
  {
    if Missing(question) || Missing(answer) {
      res.Status(400);
      res.Send(ErrorBody(InterviewMissingMessage));
      return;
    }
    var thrown: Option<string> := None;
    label Try: {
      var prompt := InterviewPrompt(question.value, answer.value);
      res.Record(Generate(InterviewModel, prompt));
      var result := env.generateContent(InterviewModel, prompt);
      if result.Fail? {
        thrown := Some(result.detail);
        break Try;
      }
      res.Send(Json("feedback", result.value));
    }
    if thrown.Some? {
      res.Record(LogError(thrown.value));
      res.Status(500);
      res.Send(ErrorBody(InterviewFailedMessage));
    }
  }
}
