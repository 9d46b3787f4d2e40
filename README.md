# Career-assistant backend: request handlers and prompt templates

This project models the request-processing core of a small Express backend (`index.js`)
that reviews uploaded resumes, answers career questions and critiques mock-interview
answers by calling a Gemini model. It models the three POST handlers and the three
prompt templates they fill in, and proves what the code promises about them.

- `POST /review` takes one uploaded file. It rejects a request without a file with 400.
  Otherwise it reads the file, extracts its text with pdf-parse and treats absent or
  empty text as an error. It puts the text into the review template, asks the model,
  and sends `{feedback}`. Any error in between gives 500 with a fixed message. Once the
  try block has settled, with a result or with an error, a `finally` block starts
  deleting the upload.
- `POST /career/ask-chatbot` rejects an absent or empty `query` with 400. Otherwise it
  asks the model with the chatbot template and sends `{message}`, or 500 on error.
- `POST /mock-interview` rejects an absent or empty `question` or `answer` with 400,
  then asks the model with the interview template and sends `{feedback}`, or 500.

How it is modelled:

- `effects.dfy` (module `Effects`) holds the shared vocabulary. Request fields are
  `Option<string>`, and `Missing` is JavaScript's `!x` on such a field. `Env` bundles the
  three external capabilities as total functions returning `Ok(value)` or `Fail(message)`:
  the file read, pdf-parse and the model call. `Effect` is one observable step: a
  capability call, an error log line, a response, or a deletion. The class `Exchange` is
  Express's `res`: `Status` and `Send` are `res.status` and `res.json`, and the object
  keeps the trace of effects of one request. `Select` and its lemmas filter a trace by
  kind of effect.
- `prompts.dfy` (module `Prompts`) writes the three template literals out character for
  character and proves that each embeds its inputs verbatim between its delimiters, that
  the resume and query templates lose nothing of their input, and that the template
  depends only on the endpoint.
- `handlers.dfy` (module `Handlers`) has one method per handler. Each runs the source's
  steps in order on an `Exchange`. A thrown error leaves a labelled `Try` block through
  `break` with its message, and the catch and finally blocks follow. Each method is proved
  to produce exactly the trace given by a function of its inputs (`ReviewEffects`,
  `ChatbotEffects`, `InterviewEffects`).
- `properties.dfy` (module `Properties`) proves the handlers' promises about those traces.
  Validation comes before any work. Exactly one response is sent. Failures give a fixed
  message, and the error's message reaches only the log. The completion is passed through
  unchanged. For `/review`, deletion of exactly the uploaded path starts exactly once
  whatever the try block settles to, after the response.
- `scenarios.dfy` (module `Scenarios`) runs whole requests through the methods with
  fixed capabilities and draws conclusions from the contracts alone.

Facts of the code that the model keeps:

- Deletion of the upload starts in the `finally` block, after `res.json` has been called
  (index.js:64, 70-74). The model therefore orders the response first and the deletion
  last.
- Deletion is only started (`fs.unlink` with a callback). The model records that it
  started, not that it finished.
- A failure to read the uploaded file produces the same 500 response as an extraction
  failure.
- The chatbot's 400 message reads "Missing resume or query.", although it checks only
  `query`. The model keeps that text.

## Model

| member | source | states |
|---|---|---|
| `Handlers.Settle` | index.js:64-68 | A settled try block ends with a response. On success it is 200 with the completion unchanged under the endpoint's key. On failure it is 500 with the fixed message, and the only effect before it is the log line with the error's message |
| `Handlers.ReviewCalls` | index.js:33-61 | The try block of /review makes one to three calls, all to capabilities, starting with the read of the upload's path. It ends with a completion only after a third call to the review model, and that completion is the model's answer to that call |
| `Handlers.ReviewEffects` | index.js:25-76 | Without a file, the trace is the 400 with "No resume file uploaded." alone. With a file, it starts with the read of the upload and ends with a response followed by the deletion of that path |
| `Handlers.ChatbotEffects` | index.js:78-119 | The chatbot trace ends with a response. It starts with a response exactly when the query is missing; otherwise it starts with the call to the chatbot model with the chatbot prompt |
| `Handlers.InterviewEffects` | index.js:121-150 | The interview trace ends with a response. It starts with a response exactly when the question or the answer is missing; otherwise it starts with the call to `gemini-pro` with the interview prompt |
| `Handlers.Review` | index.js:25-76 | On every input, the handler's effects are exactly `ReviewEffects(file, env)`, with no file, with every kind of failure, and on success, including the catch that logs and answers 500 and the finally that deletes the upload. The status left in `res` is that of the response sent |
| `Handlers.AskChatbot` | index.js:78-119 | The chatbot handler's effects are exactly `ChatbotEffects(query, env)`: validation inside the try, one model call, an explicit 200, or the catch. The status left in `res` is that of the last response |
| `Handlers.MockInterview` | index.js:121-150 | The interview handler's effects are exactly `InterviewEffects(question, answer, env)`: validation before the try, one model call, a 200 by default, or the catch. The status left in `res` is that of the last response |
| `Effects.Exchange.constructor` | index.js:64 | A fresh `res` has status 200, Express's default, and has sent nothing |
| `Effects.Exchange.Status` | index.js:28 | `res.status(code)` sets the status of the response still to be sent and sends nothing |
| `Effects.Exchange.Send` | index.js:64 | `res.json(body)` sends exactly one response with the current status and this body, and leaves the status unchanged |
| `Effects.Exchange.Record` | index.js:35 | A capability call, log line or deletion is appended to the trace. Nothing is sent and the status is unchanged |
| `Effects.SelectKeeps` | index.js:25-150 | The trace filter that the properties count effects with (calls, responses, deletions) keeps an effect exactly when it occurs in the trace and has one of the chosen kinds; it models no source line of its own |
| `Effects.SelectAppend` | index.js:25-150 | The same trace filter, which models no source line of its own, distributes over concatenation, so the properties count a handler's effects step by step |
| `Properties.SettleSendsOneResponse` | index.js:61-68 | A settled try block sends exactly one response, last: the completion verbatim with 200 on success, or a 500 with the fixed message after logging the error's message. It calls no capability and deletes nothing |
| `Properties.ReviewTraceByKind` | index.js:31-75 | For an uploaded file, the trace's calls are those of the try block, it holds one response, and its one deletion of the upload's path follows that response and ends the trace |
| `Properties.ReviewWithoutFile` | index.js:27-29 | Without a file: 400 with "No resume file uploaded.", and no read, extraction, inference or deletion |
| `Properties.ReviewCleansUpOnce` | index.js:31-75 | With a file, deletion of exactly `req.file.path` starts exactly once on every outcome, after the single response, as the last effect |
| `Properties.ReviewReadFailure` | index.js:33-68 | A failed read: only the read is attempted, the response is 500 with "Failed to process resume.", and the upload is still deleted |
| `Properties.ReviewParseFailure` | index.js:38-68 | A pdf-parse failure: read and parse only, no model call, 500 with the fixed message, and the upload is still deleted |
| `Properties.ReviewEmptyTextIsParseFailure` | index.js:39-43 | Absent or empty extracted text produces exactly the trace of a parse failure: 500 with the fixed message and no model call |
| `Properties.ReviewInference` | index.js:45-64 | With text extracted, the model is called once, with the review prompt around exactly that text. Its completion is sent verbatim under `feedback` with 200; its failure gives 500 with the fixed message |
| `Properties.ReviewHidesFailureDetail` | index.js:66-68 | Two environments that fail in the same places give the same calls, response and deletion, whatever their error messages |
| `Properties.ChatbotTraceByKind` | index.js:78-119 | The chatbot trace is one 400 response and nothing else, or one model call followed by one response. It never deletes anything |
| `Properties.ChatbotValidation` | index.js:81-85 | The response is 400 with "Missing resume or query." exactly when the query is absent or empty. The model is called exactly when it is not |
| `Properties.ChatbotInference` | index.js:87-117 | A present query is sent once in the chatbot prompt. The completion comes back verbatim under `message` with 200, or a failure gives 500 with "Something went wrong with the chatbot." |
| `Properties.ChatbotHidesFailureDetail` | index.js:115-117 | The chatbot's observable effects do not depend on an error's message |
| `Properties.InterviewTraceByKind` | index.js:121-150 | The interview trace is one 400 response and nothing else, or one model call followed by one response. It never deletes anything |
| `Properties.InterviewValidation` | index.js:122-126 | The response is 400 with "Question and answer are required" exactly when the question or the answer is absent or empty. The model is called exactly when neither is |
| `Properties.InterviewInference` | index.js:128-148 | A full pair is sent once in the interview prompt. The completion comes back verbatim under `feedback` with 200, or a failure gives 500 with "Failed to get feedback from AI." |
| `Properties.InterviewHidesFailureDetail` | index.js:146-148 | The interview endpoint's observable effects do not depend on an error's message |
| `Prompts.ReviewPrompt` | index.js:50-56 | Whatever the text, the review prompt starts with the template's whole first line, "Review this resume and provide constructive feedback to help improve it for software engineering roles.", and ends with the closing `"""` fence |
| `Prompts.ChatbotPrompt` | index.js:91-108 | Whatever the query, the chatbot prompt starts with its blank line and "You are a professional career guidance chatbot.", and ends with the list of what to respond with and the closing instruction |
| `Prompts.InterviewPrompt` | index.js:131-139 | Whatever the pair, the interview prompt starts with its blank line and "You are an experienced interviewer. ", and ends with "Your feedback should help the candidate improve." |
| `Prompts.ReviewPromptFencesResume` | index.js:50-56 | The review prompt contains the extracted text unaltered, on its own lines between two `"""` fences |
| `Prompts.ReviewPromptInjective` | index.js:50-56 | Different resume texts give different review prompts |
| `Prompts.ChatbotPromptQuotesQuery` | index.js:91-108 | The chatbot prompt contains the query unaltered, between double quotes, on the line after "User Question:" |
| `Prompts.ChatbotPromptInjective` | index.js:91-108 | Different queries give different chatbot prompts |
| `Prompts.InterviewPromptQuotesBoth` | index.js:131-139 | The interview prompt contains `Question: "<question>"` followed on the next line by `Answer: "<answer>"`, both unaltered |
| `Prompts.InterviewPromptQuotesNotEscaped` | index.js:135-136 | The quotes are not escaped. Moving `"` + newline + `Answer: "` from the end of the question to the start of the answer gives the same prompt, so the pair cannot always be recovered |
| `Prompts.PromptsOfDifferentEndpointsDiffer` | index.js:50-139 | No input to one endpoint's template yields a prompt of another endpoint's template |

## Left out

- Express, `cors`, `express.json`, multer setup and `app.listen` (index.js:12-19, 154-156) are server plumbing. A handler receives the fields it reads: `req.file` as `Option<UploadedFile>`, and the body's fields as `Option<string>`.
- The model assumes the server runs Express 4, where `express.json()` always sets `req.body` to an object, so the destructuring at index.js:81 and index.js:122 cannot throw. Under Express 5, `req.body` is `undefined` for a request without a JSON body. Then at index.js:81 the destructuring throws inside the try block, and the source answers 500 with "Something went wrong with the chatbot." where the model answers 400. At index.js:122 it throws before the try block, so Express's default error handler answers where the model answers 400.
- JavaScript truthiness is modelled only for string-or-absent fields. Numbers, booleans and other non-string JSON values are not modelled.
- The file read and pdf-parse are opaque capabilities (`Env.readFile`, `Env.parsePdf`), each returning a value or an error.
- The Gemini client is an opaque capability (`Env.generateContent`), given the model name and the prompt. This covers model construction (`getGenerativeModel`), `generateContent`, `result.response` and `response.text()` (index.js:47, 59-61, 87-89, 110-112, 129, 141-143). A throw from any of these counts as one failure of that capability. The model names are kept as constants.
- The completion of `fs.unlink` and its callback that logs a deletion error (index.js:72-74) are not modelled: they run after the handler has finished. Deletion is recorded as started. Its result is not an input to the model, so it cannot change the response.
- Each capability is assumed to settle: `Env`'s functions are total. The awaited calls to pdf-parse (index.js:38) and to `generateContent` (index.js:59, 110, 141) have no time-out. A call that never settles sends no response and, for /review, never reaches the `finally` block, so the upload is not deleted. The model does not cover that case.
- The model does not cover async scheduling, or concurrency between requests.
- Log lines keep only the error's `message` as given to `console.error` in each catch block, not the fixed prefix. The request-body log at index.js:80 is not modelled.
- A throw from `res.json` itself is not modelled.
- `module.exports = router` (index.js:152) names a variable that is never declared. Loading the module as written would throw a ReferenceError before `app.listen` runs. This is a bootstrap defect outside the handlers, so it is noted here rather than modelled.
- Determinism of the prompt templates has no lemma of its own: they are Dafny functions, so equal inputs give equal prompts by construction.
