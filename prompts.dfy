/** The three prompt templates of index.js, written out character for character
    (template literals with `\n` line ends, indentation and trailing spaces kept),
    and what they promise: each one embeds its inputs verbatim inside its delimiters,
    and which template is used depends on the endpoint alone. */
module Prompts {

  predicate StartsWith(s: string, prefix: string) {
    |prefix| <= |s| && s[..|prefix|] == prefix
  }

  predicate EndsWith(s: string, suffix: string) {
    |suffix| <= |s| && s[|s| - |suffix|..] == suffix
  }

  /** `sub` occurs in `s` as a contiguous piece. */
  predicate Contains(s: string, sub: string) {
    exists i :: 0 <= i <= |s| && StartsWith(s[i..], sub)
  }

  lemma ContainsMiddle(pre: string, sub: string, post: string)
    ensures Contains(pre + sub + post, sub)
  {
    var s := pre + sub + post;
    assert s[|pre|..] == sub + post;
    assert (sub + post)[..|sub|] == sub;
  }

  /** The piece `open + x + close` occurs in the prompt whose lead ends with `open` and
      whose trail starts with `close`. */
  lemma ContainsAcross(pre: string, open: string, x: string, close: string, post: string)
    ensures Contains((pre + open) + x + (close + post), open + x + close)
  {
    assert (pre + open) + x + (close + post) == pre + (open + x + close) + post;
    ContainsMiddle(pre, open + x + close, post);
  }

  /** The same, for two pieces with a fixed separator between them. */
  lemma ContainsAcrossPair(pre: string, open: string, x: string, mid: string, y: string, close: string, post: string)
    ensures Contains((pre + open) + x + mid + y + (close + post), open + x + mid + y + close)
  {
    var xy := x + mid + y;
    assert (pre + open) + x + mid + y + (close + post) == (pre + open) + xy + (close + post);
    assert open + x + mid + y + close == open + xy + close;
    ContainsAcross(pre, open, xy, close, post);
  }

  /** A fixed frame around a string loses nothing of it. */
  lemma FrameInjective(lead: string, trail: string, x: string, y: string)
    ensures lead + x + trail == lead + y + trail ==> x == y
  {
    if lead + x + trail == lead + y + trail {
      assert |x| == |y|;
      assert x == (lead + x + trail)[|lead|..|lead| + |x|];
      assert y == (lead + y + trail)[|lead|..|lead| + |y|];
    }
  }

  // ----- /review (index.js:50-56) -----

  const Fence := "\"\"\""

  const ReviewOpening := "Review this resume"

  const ReviewFirstLine :=
    ReviewOpening + " and provide constructive feedback to help improve it for software engineering roles.\n"

  const ReviewIntro :=
    ReviewFirstLine +
    "    \n" +
    "    Here is the resume content:\n" +
    "    "

  /** The opening fence and the indentation of the line after it. */
  const FenceOpen := Fence + "\n    "

  /** The line end and indentation before the closing fence. */
  const FenceClose := "\n    " + Fence

  /** Whatever the text, the prompt opens with the template's whole first line and
      closes with its fence. */
  function ReviewPrompt(resumeText: string): (r: string)
    ensures StartsWith(r, ReviewFirstLine)
    ensures EndsWith(r, Fence + "\n    ")
  {
    (ReviewIntro + FenceOpen) + resumeText + (FenceClose + "\n    ")
  }

  /** The extracted text sits, unaltered, on its own lines between two `"""` fences. */
  lemma ReviewPromptFencesResume(resumeText: string)
    ensures Contains(ReviewPrompt(resumeText), FenceOpen + resumeText + FenceClose)
  {
    ContainsAcross(ReviewIntro, FenceOpen, resumeText, FenceClose, "\n    ");
  }

  /** No two resumes give the same prompt: nothing of the text is lost. */
  lemma ReviewPromptInjective(t1: string, t2: string)
    ensures ReviewPrompt(t1) == ReviewPrompt(t2) ==> t1 == t2
  {
    FrameInjective(ReviewIntro + FenceOpen, FenceClose + "\n    ", t1, t2);
  }

  // ----- /career/ask-chatbot (index.js:91-108) -----

  // The two openings that begin "\nYou are a" are split where they first differ.
  const ChatbotOpening := "\nYou are a " + "professional career guidance chatbot.\n"

  const ChatbotIntro :=
    ChatbotOpening +
    "\n" +
    "Given the following user question, offer tailored guidance:\n" +
    "\n" +
    "\n" +
    "\n"

  const QuestionLabel := "User Question:\n\""

  const QuoteEnd := "\"\n"

  const ChatbotRequest :=
    "\n" +
    "Respond with:\n" +
    "1. Recommended Career Paths\n" +
    "2. Required Skills to Acquire\n" +
    "3. Month-by-Month Learning Roadmap (6 months)\n" +
    "4. Useful Online Resources (include links if possible)\n" +
    "\n" +
    "Respond clearly and concisely. Add some friendly words, and feel like chatting with a career friend.\n"

  /** Whatever the query, the prompt opens with the chatbot's role and closes with the
      list of what to respond with. */
  function ChatbotPrompt(query: string): (r: string)
    ensures StartsWith(r, ChatbotOpening)
    ensures EndsWith(r, ChatbotRequest)
  {
    (ChatbotIntro + QuestionLabel) + query + (QuoteEnd + ChatbotRequest)
  }

  /** The query sits, unaltered, between double quotes on the line after "User Question:". */
  lemma ChatbotPromptQuotesQuery(query: string)
    ensures Contains(ChatbotPrompt(query), "User Question:\n\"" + query + "\"\n")
  {
    ContainsAcross(ChatbotIntro, QuestionLabel, query, QuoteEnd, ChatbotRequest);
  }

  /** No two queries give the same prompt. */
  lemma ChatbotPromptInjective(q1: string, q2: string)
    ensures ChatbotPrompt(q1) == ChatbotPrompt(q2) ==> q1 == q2
  {
    FrameInjective(ChatbotIntro + QuestionLabel, QuoteEnd + ChatbotRequest, q1, q2);
  }

  // ----- /mock-interview (index.js:131-139) -----

  const InterviewOpening := "\nYou are an " + "experienced interviewer. \n"

  /** The interviewer's role and task, up to the line that holds the question. */
  const InterviewTask :=
    InterviewOpening +
    "Analyze the following response to the interview question and provide detailed constructive feedback.\n" +
    "\n"

  const QuestionQuote := "Question: \""

  const InterviewLead := InterviewTask + QuestionQuote

  const AnswerLabel := "Answer: \""

  /** What separates the question from the answer. */
  const InterviewMiddle := QuoteEnd + AnswerLabel

  const InterviewClosing :=
    "\n" +
    "Your feedback should help the candidate improve.\n"

  /** Whatever the pair, the prompt opens with the interviewer's role and closes with
      the instruction on what the feedback is for. */
  function InterviewPrompt(question: string, answer: string): (r: string)
    ensures StartsWith(r, InterviewOpening)
    ensures EndsWith(r, InterviewClosing)
  {
    InterviewLead + question + InterviewMiddle + answer + (QuoteEnd + InterviewClosing)
  }

  /** The question and the answer each sit, unaltered, between double quotes on a
      labelled line, the question first and the answer on the line after it. */
  lemma InterviewPromptQuotesBoth(question: string, answer: string)
    ensures Contains(InterviewPrompt(question, answer), QuestionQuote + question + InterviewMiddle + answer + QuoteEnd)
  {
    ContainsAcrossPair(InterviewTask, QuestionQuote, question, InterviewMiddle, answer, QuoteEnd, InterviewClosing);
  }

  /** The quotes around the question and the answer are not escaped, so the pair cannot
      always be read back: moving an `"` + newline + `Answer: "` sequence from the end of
      the question to the start of the answer leaves the prompt unchanged. */
  lemma InterviewPromptQuotesNotEscaped(x: string, y: string, z: string)
    ensures x + InterviewMiddle + y != x
    ensures InterviewPrompt(x + InterviewMiddle + y, z) == InterviewPrompt(x, y + InterviewMiddle + z)
  {
    assert |InterviewMiddle| > 0 by { assert InterviewMiddle[0] == '"'; }
    assert InterviewLead + (x + InterviewMiddle + y) + InterviewMiddle + z
        == InterviewLead + x + InterviewMiddle + (y + InterviewMiddle + z);
  }

  // ----- template choice -----

  /** No input to one endpoint's template yields the prompt of another endpoint. */
  lemma PromptsOfDifferentEndpointsDiffer(resumeText: string, query: string, question: string, answer: string)
    ensures ReviewPrompt(resumeText) != ChatbotPrompt(query)
    ensures ReviewPrompt(resumeText) != InterviewPrompt(question, answer)
    ensures ChatbotPrompt(query) != InterviewPrompt(question, answer)
  {
    var r, c, i := ReviewPrompt(resumeText), ChatbotPrompt(query), InterviewPrompt(question, answer);
    assert ReviewOpening[0] == 'R' && ChatbotOpening[0] == '\n' && InterviewOpening[0] == '\n';
    assert ChatbotOpening[10] == ' ' && InterviewOpening[10] == 'n';
    assert ReviewFirstLine[0] == ReviewOpening[0];
    assert r[0] == ReviewFirstLine[0] && c[0] == ChatbotOpening[0] && i[0] == InterviewOpening[0];
    assert c[10] == ChatbotOpening[10] && i[10] == InterviewOpening[10];
  }
}
