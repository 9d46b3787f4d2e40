/** Whole requests run through the handler methods, with capabilities fixed in advance:
    what a caller of the methods can conclude from their contracts and the lemmas. */
module Scenarios {
  import opened Effects
  import opened Handlers
  import opened Properties

  /** A readable document whose text is extracted and reviewed: 200 with the completion,
      and deletion of the upload started once. */
  method ReviewOfReadableDocument() {
    var file := UploadedFile("uploads/3f2a9c");
    var buffer: Bytes := [37, 80, 68, 70];
    var text := "Experienced backend engineer...";
    var env := Env((p: string) => Ok(buffer),
                   (b: Bytes) => Ok(PdfData(Some(text))),
                   (m: string, p: string) => Ok("Lead with measurable impact."));
    var res := new Exchange();
    Review(res, Some(file), env);
    assert res.trace == ReviewEffects(Some(file), env);
    ReviewInference(file, env, buffer, text);
    ReviewCleansUpOnce(file, env);
    assert Responses(res.trace) == [Respond(200, Json("feedback", "Lead with measurable impact."))];
    assert Cleanups(res.trace) == [Unlink("uploads/3f2a9c")];
  }

  /** A document with no text in it: 500 with the fixed message, and the upload is still deleted. */
  method ReviewOfEmptyDocument() {
    var file := UploadedFile("uploads/77b0");
    var buffer: Bytes := [37, 80, 68, 70];
    var env := Env((p: string) => Ok(buffer),
                   (b: Bytes) => Ok(PdfData(Some(""))),
                   (m: string, p: string) => Ok("unused"));
    var res := new Exchange();
    Review(res, Some(file), env);
    assert res.trace == ReviewEffects(Some(file), env);
    ReviewEmptyTextIsParseFailure(file, env, buffer, Some(""));
    ReviewCleansUpOnce(file, env);
    assert Responses(res.trace) == [Respond(500, ErrorBody("Failed to process resume."))];
    assert Cleanups(res.trace) == [Unlink("uploads/77b0")];
  }

  /** A question to the chatbot is answered with 200; an empty body gets 400. */
  method ChatbotRequests(env: Env) {
    var res := new Exchange();
    AskChatbot(res, Some("How do I become a data engineer?"), env);
    assert res.trace == ChatbotEffects(Some("How do I become a data engineer?"), env);
    ChatbotInference("How do I become a data engineer?", env);
    assert |Responses(res.trace)| == 1 && Responses(res.trace)[0].Respond?;
    assert Responses(res.trace)[0].status in {200, 500};

    var empty := new Exchange();
    AskChatbot(empty, None, env);
    assert empty.trace == ChatbotEffects(None, env);
    ChatbotValidation(None, env);
    assert Responses(empty.trace) == [Respond(400, ErrorBody("Missing resume or query."))];
  }

  /** An empty answer is a missing answer: 400 before any call to the model. */
  method InterviewWithEmptyAnswer(env: Env) {
    var res := new Exchange();
    MockInterview(res, Some("Tell me about a hard bug."), Some(""), env);
    assert res.trace == InterviewEffects(Some("Tell me about a hard bug."), Some(""), env);
    InterviewValidation(Some("Tell me about a hard bug."), Some(""), env);
    assert Responses(res.trace) == [Respond(400, ErrorBody("Question and answer are required"))];
    assert OracleCalls(res.trace) == [];
  }
}
