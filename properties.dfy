/** What index.js promises about the three handlers, stated over the effect traces
    that the handler methods are proved to produce. */
module Properties {
  import opened Effects
  import opened Prompts
  import opened Handlers

  // ---------------------------------------------------------------------------
  // The pieces the traces are built from
  // ---------------------------------------------------------------------------

  /** The response a settled handler sends. */
  function Reply(outcome: Outcome<string>, key: string, failure: string): Effect {
    if outcome.Ok? then Respond(200, Json(key, outcome.value)) else Respond(500, ErrorBody(failure))
  }

  /** Settling sends exactly one response, last, and neither calls a capability nor deletes. */
  lemma SettleSendsOneResponse(outcome: Outcome<string>, key: string, failure: string)
    ensures var s := Settle(outcome, key, failure);
      Responses(s) == [Reply(outcome, key, failure)] &&
      Observable(s) == [Reply(outcome, key, failure)] &&
      OracleCalls(s) == [] && Cleanups(s) == [] &&
      s != [] && s[|s| - 1] == Reply(outcome, key, failure)
  {
    var s := Settle(outcome, key, failure);
    var reply := Reply(outcome, key, failure);
    if outcome.Ok? {
      SelectOne(reply, {Response});
      SelectOne(reply, {OracleCall, Response, Cleanup});
      SelectOne(reply, {OracleCall});
      SelectOne(reply, {Cleanup});
    } else {
      var log := LogError(outcome.detail);
      assert s == [log] + [reply];
      forall kinds: set<Kind>
        ensures Select(s, kinds) == Select([log], kinds) + Select([reply], kinds)
      {
        SelectAppend([log], [reply], kinds);
      }
      SelectOne(log, {Response});
      SelectOne(log, {OracleCall, Response, Cleanup});
      SelectOne(log, {OracleCall});
      SelectOne(log, {Cleanup});
      SelectOne(reply, {Response});
      SelectOne(reply, {OracleCall, Response, Cleanup});
      SelectOne(reply, {OracleCall});
      SelectOne(reply, {Cleanup});
    }
  }

  /** Everything /review does before its catch block is a call to a capability. */
  lemma ReviewCallsAreOracleCalls(path: string, env: Env)
    ensures var calls := ReviewCalls(path, env).0;
      OracleCalls(calls) == calls && Observable(calls) == calls &&
      Responses(calls) == [] && Cleanups(calls) == []
  {
    var calls := ReviewCalls(path, env).0;
    assert forall e :: e in calls ==> KindOf(e) == OracleCall;
    SelectAll(calls, {OracleCall});
    SelectAll(calls, {OracleCall, Response, Cleanup});
    SelectNone(calls, {Response});
    SelectNone(calls, {Cleanup});
  }

  /** Capability calls, then an ending that holds one response, then one deletion, kind by kind. */
  lemma CallsReplyUnlink(calls: seq<Effect>, s: seq<Effect>, reply: Effect, path: string)
    requires OracleCalls(calls) == calls && Observable(calls) == calls
    requires Responses(calls) == [] && Cleanups(calls) == []
    requires Responses(s) == [reply] && Observable(s) == [reply]
    requires OracleCalls(s) == [] && Cleanups(s) == []
    requires s != [] && s[|s| - 1] == reply
    ensures var t := calls + s + [Unlink(path)];
      OracleCalls(t) == calls && Responses(t) == [reply] && Cleanups(t) == [Unlink(path)] &&
      Observable(t) == calls + [reply, Unlink(path)] &&
      |t| >= 2 && t[|t| - 2] == reply && t[|t| - 1] == Unlink(path)
  {
    var u := Unlink(path);
    var t := calls + s + [u];
    assert OracleCalls(t) == calls by { SplitThree(calls, s, u, {OracleCall}); }
    assert Responses(t) == [reply] by { SplitThree(calls, s, u, {Response}); }
    assert Cleanups(t) == [u] by { SplitThree(calls, s, u, {Cleanup}); }
    assert Observable(t) == calls + [reply, u] by {
      SplitThree(calls, s, u, {OracleCall, Response, Cleanup});
    }
    assert t[|t| - 2] == s[|s| - 1];
  }

  lemma SplitThree(a: seq<Effect>, b: seq<Effect>, e: Effect, kinds: set<Kind>)
    ensures Select(a + b + [e], kinds)
         == Select(a, kinds) + Select(b, kinds) + (if KindOf(e) in kinds then [e] else [])
  {
    SelectAppend(a + b, [e], kinds);
    SelectAppend(a, b, kinds);
    SelectOne(e, kinds);
  }


  /** The trace of /review for an uploaded file, kind by kind. */
  lemma ReviewTraceByKind(f: UploadedFile, env: Env)
    ensures var (calls, outcome) := ReviewCalls(f.path, env);
      var t := ReviewEffects(Some(f), env);
      var reply := Reply(outcome, "feedback", ReviewFailedMessage);
      OracleCalls(t) == calls &&
      Responses(t) == [reply] &&
      Cleanups(t) == [Unlink(f.path)] &&
      Observable(t) == calls + [reply, Unlink(f.path)] &&
      |t| >= 2 && t[|t| - 2] == reply && t[|t| - 1] == Unlink(f.path)
  {
    var (calls, outcome) := ReviewCalls(f.path, env);
    ReviewCallsAreOracleCalls(f.path, env);
    SettleSendsOneResponse(outcome, "feedback", ReviewFailedMessage);
    CallsReplyUnlink(calls, Settle(outcome, "feedback", ReviewFailedMessage),
                     Reply(outcome, "feedback", ReviewFailedMessage), f.path);
  }

  /** A trace made of one call to the model and a settled ending, kind by kind. */
  lemma CallThenSettle(call: Effect, outcome: Outcome<string>, key: string, failure: string)
    requires call.Generate?
    ensures var t := [call] + Settle(outcome, key, failure);
      var reply := Reply(outcome, key, failure);
      OracleCalls(t) == [call] && Responses(t) == [reply] &&
      Observable(t) == [call, reply] && Cleanups(t) == []
  {
    var s := Settle(outcome, key, failure);
    var t := [call] + s;
    SettleSendsOneResponse(outcome, key, failure);
    forall kinds: set<Kind>
      ensures Select(t, kinds) == Select([call], kinds) + Select(s, kinds)
    {
      SelectAppend([call], s, kinds);
    }
    SelectOne(call, {Response});
    SelectOne(call, {OracleCall});
    SelectOne(call, {Cleanup});
    SelectOne(call, {OracleCall, Response, Cleanup});
  }

  /** A rejection: one response and nothing else. */
  lemma RejectionOnly(body: Json)
    ensures var t := [Respond(400, body)];
      Responses(t) == t && Observable(t) == t && OracleCalls(t) == [] && Cleanups(t) == []
  {
    var e := Respond(400, body);
    SelectOne(e, {Response});
    SelectOne(e, {OracleCall, Response, Cleanup});
    SelectOne(e, {OracleCall});
    SelectOne(e, {Cleanup});
  }

  // ---------------------------------------------------------------------------
  // POST /review
  // ---------------------------------------------------------------------------

  /** Without an uploaded file the request is rejected with 400 before anything else
      happens: no read, no extraction, no inference, and no deletion, since no path exists. */
  lemma ReviewWithoutFile(env: Env)
    ensures var t := ReviewEffects(None, env);
      Responses(t) == [Respond(400, ErrorBody(NoFileMessage))] &&
      OracleCalls(t) == [] && Cleanups(t) == []
  {
    RejectionOnly(ErrorBody(NoFileMessage));
  }


  /** Once a file is accepted, deletion of exactly its path is started exactly once, after
      the one response, whatever happens in between. Nothing about the deletion feeds back
      into the response. */
  lemma ReviewCleansUpOnce(f: UploadedFile, env: Env)
    ensures var t := ReviewEffects(Some(f), env);
      Cleanups(t) == [Unlink(f.path)] &&
      |Responses(t)| == 1 &&
      |t| >= 2 && t[|t| - 2].Respond? && t[|t| - 1] == Unlink(f.path)
  {
    ReviewTraceByKind(f, env);
  }

  /** A file that cannot be read ends with 500 and the fixed message; nothing is parsed
      and the model is not called. */
  lemma ReviewReadFailure(f: UploadedFile, env: Env)
    requires env.readFile(f.path).Fail?
    ensures var t := ReviewEffects(Some(f), env);
      OracleCalls(t) == [ReadFile(f.path)] &&
      Responses(t) == [Respond(500, ErrorBody(ReviewFailedMessage))] &&
      Cleanups(t) == [Unlink(f.path)]
  {
    ReviewTraceByKind(f, env);
  }

  /** A buffer pdf-parse rejects ends with 500 and the fixed message; the model is not called. */
  lemma ReviewParseFailure(f: UploadedFile, env: Env, buffer: Bytes)
    requires env.readFile(f.path) == Ok(buffer)
    requires env.parsePdf(buffer).Fail?
    ensures var t := ReviewEffects(Some(f), env);
      OracleCalls(t) == [ReadFile(f.path), ParsePdf(buffer)] &&
      Responses(t) == [Respond(500, ErrorBody(ReviewFailedMessage))] &&
      Cleanups(t) == [Unlink(f.path)]
  {
    ReviewTraceByKind(f, env);
  }

  /** Extraction that yields no text, absent or empty, takes exactly the path of a parse
      failure (one whose message is the handler's own): the same trace, so 500 with the
      fixed message and no call to the model. */
  lemma ReviewEmptyTextIsParseFailure(f: UploadedFile, env: Env, buffer: Bytes, text: Option<string>)
    requires env.readFile(f.path) == Ok(buffer)
    requires env.parsePdf(buffer) == Ok(PdfData(text))
    requires Missing(text)
    ensures ReviewEffects(Some(f), env)
         == ReviewEffects(Some(f), env.(parsePdf := (b: Bytes) => Fail(NoTextMessage)))
    ensures var t := ReviewEffects(Some(f), env);
      OracleCalls(t) == [ReadFile(f.path), ParsePdf(buffer)] &&
      Responses(t) == [Respond(500, ErrorBody(ReviewFailedMessage))]
  {
    ReviewTraceByKind(f, env);
  }

  /** With text extracted, the model is asked once, with the review template around exactly
      that text; its completion comes back verbatim under "feedback" with 200, and its
      failure gives 500 with the fixed message. */
  lemma ReviewInference(f: UploadedFile, env: Env, buffer: Bytes, text: string)
    requires env.readFile(f.path) == Ok(buffer)
    requires env.parsePdf(buffer) == Ok(PdfData(Some(text)))
    requires text != ""
    ensures var t := ReviewEffects(Some(f), env);
      var outcome := env.generateContent(ReviewModel, ReviewPrompt(text));
      OracleCalls(t) == [ReadFile(f.path), ParsePdf(buffer), Generate(ReviewModel, ReviewPrompt(text))] &&
      Responses(t) == (if outcome.Ok? then [Respond(200, Json("feedback", outcome.value))]
                       else [Respond(500, ErrorBody(ReviewFailedMessage))])
  {
    ReviewTraceByKind(f, env);
  }

  /** The response never depends on an error's message: two environments that fail in the
      same places give the same calls, response and deletion, whatever their errors say. */
  lemma ReviewHidesFailureDetail(file: Option<UploadedFile>, e1: Env, e2: Env)
    requires AgreeUpToDetail(e1, e2)
    ensures Observable(ReviewEffects(file, e1)) == Observable(ReviewEffects(file, e2))
  {
    if file.Some? {
      var f := file.value;
      ReviewTraceByKind(f, e1);
      ReviewTraceByKind(f, e2);
      var (c1, o1) := ReviewCalls(f.path, e1);
      var (c2, o2) := ReviewCalls(f.path, e2);
      assert SameUpToDetail(e1.readFile(f.path), e2.readFile(f.path));
      if e1.readFile(f.path).Ok? {
        var buffer := e1.readFile(f.path).value;
        assert SameUpToDetail(e1.parsePdf(buffer), e2.parsePdf(buffer));
        if e1.parsePdf(buffer).Ok? {
          var text := e1.parsePdf(buffer).value.text;
          if !Missing(text) {
            var prompt := ReviewPrompt(text.value);
            assert SameUpToDetail(e1.generateContent(ReviewModel, prompt), e2.generateContent(ReviewModel, prompt));
          }
        }
      }
      assert c1 == c2 && SameUpToDetail(o1, o2);
    }
  }

  // ---------------------------------------------------------------------------
  // POST /career/ask-chatbot
  // ---------------------------------------------------------------------------

  /** An absent or empty query, and only such a query, is rejected with 400 and the fixed
      message, and then the model is not called. The chatbot never deletes anything. */
  lemma ChatbotValidation(query: Option<string>, env: Env)
    ensures var t := ChatbotEffects(query, env);
      (Missing(query) <==> Responses(t) == [Respond(400, ErrorBody(ChatbotMissingMessage))]) &&
      (Missing(query) <==> OracleCalls(t) == []) &&
      Cleanups(t) == []
  {
    ChatbotTraceByKind(query, env);
  }

  /** A present query is put into the chatbot template and sent to the model once; the
      completion comes back verbatim under "message" with 200, a failure gives 500 with
      the fixed message. */
  lemma ChatbotInference(query: string, env: Env)
    requires query != ""
    ensures var t := ChatbotEffects(Some(query), env);
      var outcome := env.generateContent(ChatbotModel, ChatbotPrompt(query));
      OracleCalls(t) == [Generate(ChatbotModel, ChatbotPrompt(query))] &&
      Responses(t) == (if outcome.Ok? then [Respond(200, Json("message", outcome.value))]
                       else [Respond(500, ErrorBody(ChatbotFailedMessage))])
  {
    ChatbotTraceByKind(Some(query), env);
  }

  /** The chatbot's response never depends on an error's message. */
  lemma ChatbotHidesFailureDetail(query: Option<string>, e1: Env, e2: Env)
    requires AgreeUpToDetail(e1, e2)
    ensures Observable(ChatbotEffects(query, e1)) == Observable(ChatbotEffects(query, e2))
  {
    ChatbotTraceByKind(query, e1);
    ChatbotTraceByKind(query, e2);
    if !Missing(query) {
      var prompt := ChatbotPrompt(query.value);
      assert SameUpToDetail(e1.generateContent(ChatbotModel, prompt), e2.generateContent(ChatbotModel, prompt));
    }
  }

  lemma ChatbotTraceByKind(query: Option<string>, env: Env)
    ensures var t := ChatbotEffects(query, env);
      Cleanups(t) == [] &&
      (Missing(query) ==>
        Responses(t) == [Respond(400, ErrorBody(ChatbotMissingMessage))] && OracleCalls(t) == [] &&
        Observable(t) == Responses(t)) &&
      (!Missing(query) ==>
        var call := Generate(ChatbotModel, ChatbotPrompt(query.value));
        var reply := Reply(env.generateContent(ChatbotModel, ChatbotPrompt(query.value)), "message", ChatbotFailedMessage);
        OracleCalls(t) == [call] && Responses(t) == [reply] && Observable(t) == [call, reply])
  {
    if Missing(query) {
      RejectionOnly(ErrorBody(ChatbotMissingMessage));
    } else {
      var prompt := ChatbotPrompt(query.value);
      CallThenSettle(Generate(ChatbotModel, prompt), env.generateContent(ChatbotModel, prompt),
                     "message", ChatbotFailedMessage);
    }
  }


  // ---------------------------------------------------------------------------
  // POST /mock-interview
  // ---------------------------------------------------------------------------

  /** A request whose question or answer is absent or empty, and only such a request, is
      rejected with 400 and the fixed message, before any call to the model. */
  lemma InterviewValidation(question: Option<string>, answer: Option<string>, env: Env)
    ensures var t := InterviewEffects(question, answer, env);
      (Missing(question) || Missing(answer) <==>
         Responses(t) == [Respond(400, ErrorBody(InterviewMissingMessage))]) &&
      (Missing(question) || Missing(answer) <==> OracleCalls(t) == []) &&
      Cleanups(t) == []
  {
    InterviewTraceByKind(question, answer, env);
  }

  /** A full question and answer are put into the interview template and sent to the
      model once; the completion comes back verbatim under "feedback" with 200, a failure
      gives 500 with the fixed message. */
  lemma InterviewInference(question: string, answer: string, env: Env)
    requires question != "" && answer != ""
    ensures var t := InterviewEffects(Some(question), Some(answer), env);
      var outcome := env.generateContent(InterviewModel, InterviewPrompt(question, answer));
      OracleCalls(t) == [Generate(InterviewModel, InterviewPrompt(question, answer))] &&
      Responses(t) == (if outcome.Ok? then [Respond(200, Json("feedback", outcome.value))]
                       else [Respond(500, ErrorBody(InterviewFailedMessage))])
  {
    InterviewTraceByKind(Some(question), Some(answer), env);
  }

  /** The interview endpoint's response never depends on an error's message. */
  lemma InterviewHidesFailureDetail(question: Option<string>, answer: Option<string>, e1: Env, e2: Env)
    requires AgreeUpToDetail(e1, e2)
    ensures Observable(InterviewEffects(question, answer, e1)) == Observable(InterviewEffects(question, answer, e2))
  {
    InterviewTraceByKind(question, answer, e1);
    InterviewTraceByKind(question, answer, e2);
    if !(Missing(question) || Missing(answer)) {
      var prompt := InterviewPrompt(question.value, answer.value);
      assert SameUpToDetail(e1.generateContent(InterviewModel, prompt), e2.generateContent(InterviewModel, prompt));
    }
  }

  lemma InterviewTraceByKind(question: Option<string>, answer: Option<string>, env: Env)
    ensures var t := InterviewEffects(question, answer, env);
      Cleanups(t) == [] &&
      (Missing(question) || Missing(answer) ==>
        Responses(t) == [Respond(400, ErrorBody(InterviewMissingMessage))] && OracleCalls(t) == [] &&
        Observable(t) == Responses(t)) &&
      (!(Missing(question) || Missing(answer)) ==>
        var prompt := InterviewPrompt(question.value, answer.value);
        var call := Generate(InterviewModel, prompt);
        var reply := Reply(env.generateContent(InterviewModel, prompt), "feedback", InterviewFailedMessage);
        OracleCalls(t) == [call] && Responses(t) == [reply] && Observable(t) == [call, reply])
  {
    if Missing(question) || Missing(answer) {
      RejectionOnly(ErrorBody(InterviewMissingMessage));
    } else {
      var prompt := InterviewPrompt(question.value, answer.value);
      CallThenSettle(Generate(InterviewModel, prompt), env.generateContent(InterviewModel, prompt),
                     "feedback", InterviewFailedMessage);
    }
  }

}
