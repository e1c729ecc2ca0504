/** The AI proxy handlers: a required-field gate, one opaque call to the
    text-generation service, a fence-stripping cleanup of the raw text and an
    opaque `JSON.parse`. The generator and the parser are parameters. */
module AiController {
  import opened Js
  import opened Text

  const JsonFence: string := "```json"
  const Fence: string := "```"

  const MissingFieldsMessage: string := "Missing Required Fields!"
  const FailureMessage: string := "Failed to generate questions"

  /** `replace(/^```json\s*\/, "")`: only text that begins with exactly
      "```json" changes, and then loses that marker and the maximal run of
      whitespace after it. */
  function StripLeadingFence(s: string): (r: string)
    ensures r != s <==> StartsWith(s, JsonFence)
    ensures |r| <= |s| && r == s[|s| - |r|..]
    ensures StartsWith(s, JsonFence) ==>
              && |JsonFence| <= |s| - |r|
              && SpaceBetween(s, |JsonFence|, |s| - |r|)
              && (r == [] || !IsSpace(r[0]))
  {
    if StartsWith(s, JsonFence) then
      var t := s[|JsonFence|..];
      var r := DropLeadingSpace(t);
      forall k | |JsonFence| <= k < |s| - |r|
        ensures IsSpace(s[k])
      {
        assert s[k] == t[k - |JsonFence|];
      }
      r
    else s
  }

  /** `replace(/```$/, "")` without the multiline flag: one fence is removed,
      and only when it is the very last three characters. */
  function StripTrailingFence(s: string): (r: string)
    ensures r != s <==> EndsWith(s, Fence)
    ensures EndsWith(s, Fence) ==> r + Fence == s
    ensures |r| <= |s| && r == s[..|r|]
  {
    if EndsWith(s, Fence) then s[..|s| - |Fence|] else s
  }

  /** The cleanup both handlers apply to the generator's raw text before
      parsing it. The result has no outer whitespace. */
  function Clean(raw: string): (r: string)
    ensures NoOuterSpace(r)
    ensures |r| <= |raw|
  {
    Trim(StripTrailingFence(StripLeadingFence(raw)))
  }

  /** The cleaned text is a contiguous piece of the raw text. */
  lemma CleanIsInfix(raw: string)
    ensures Infix(Clean(raw), raw)
  {
    var a := StripLeadingFence(raw);
    var b := StripTrailingFence(a);
    InfixOfPrefixOfSuffix(Trim(b), b, a, raw, |b| - |DropLeadingSpace(b)|);
  }

  /** Text that begins with the opener loses it and the whitespace after it. */
  lemma LeadingStepAfterOpener(t: string)
    ensures StripLeadingFence(JsonFence + t) == DropLeadingSpace(t)
  {
    assert (JsonFence + t)[..|JsonFence|] == JsonFence;
    assert (JsonFence + t)[|JsonFence|..] == t;
  }

  /** The leading step on a fenced payload leaves the payload, the newline
      before the closing fence and the fence. */
  lemma {:induction false} LeadingStepOnFencedPayload(p: string)
    requires p != [] && !IsSpace(p[0])
    ensures StripLeadingFence(JsonFence + "\n" + p + "\n" + Fence) == p + "\n" + Fence
  {
    var tail := p + "\n" + Fence;
    assert JsonFence + "\n" + p + "\n" + Fence == JsonFence + ("\n" + tail);
    LeadingStepAfterOpener("\n" + tail);
    assert ("\n" + tail)[1..] == tail;
    assert tail[0] == p[0];
  }

  /** With an empty payload the newline merges into the whitespace run and
      only the closing fence is left. */
  lemma LeadingStepOnEmptyPayload()
    ensures StripLeadingFence(JsonFence + "\n" + "\n" + Fence) == Fence
  {
    var ws := "\n\n";
    assert JsonFence + "\n" + "\n" + Fence == JsonFence + (ws + Fence);
    LeadingStepAfterOpener(ws + Fence);
    assert AllSpace(ws) && !IsSpace(Fence[0]);
    DropSpaceRun(ws, Fence);
  }

  /** The closing fence goes, then trimming drops the newline before it. */
  lemma {:induction false} TrailingStepsOnPayload(p: string)
    requires p != [] && NoOuterSpace(p)
    ensures Trim(StripTrailingFence(p + "\n" + Fence)) == p
  {
    var a := p + "\n" + Fence;
    assert a == (p + "\n") + Fence;
    assert a[|a| - |Fence|..] == Fence;
    assert StripTrailingFence(a) == p + "\n";
    assert (p + "\n")[0] == p[0];
    assert DropLeadingSpace(p + "\n") == p + "\n";
    assert (p + "\n")[..|p|] == p;
    assert DropTrailingSpace(p + "\n") == DropTrailingSpace(p);
    assert DropTrailingSpace(p) == p;
  }

  /** A fenced payload whose ends are not whitespace comes out exactly. */
  lemma {:induction false} CleanFencedPayload(p: string)
    requires NoOuterSpace(p)
    ensures Clean(JsonFence + "\n" + p + "\n" + Fence) == p
  {
    if p == [] {
      assert JsonFence + "\n" + p + "\n" + Fence == JsonFence + "\n" + "\n" + Fence;
      LeadingStepOnEmptyPayload();
      assert StripTrailingFence(Fence) == "";
      assert Trim("") == "";
    } else {
      LeadingStepOnFencedPayload(p);
      TrailingStepsOnPayload(p);
    }
  }

  /** A model reply of the form ```json + newline + [X] + newline + ``` cleans to [X]. */
  lemma CleanFencedArray(x: string)
    ensures Clean(JsonFence + "\n" + "[" + x + "]" + "\n" + Fence) == "[" + x + "]"
  {
    var p := "[" + x + "]";
    assert NoOuterSpace(p);
    assert JsonFence + "\n" + "[" + x + "]" + "\n" + Fence == JsonFence + "\n" + p + "\n" + Fence;
    CleanFencedPayload(p);
  }

  /** A bare fence or an upper-case language tag is not the opener the regex looks for. */
  lemma OtherOpenersKept(x: string)
    ensures StripLeadingFence("```JSON" + x) == "```JSON" + x
    ensures StripLeadingFence("```\n" + x) == "```\n" + x
  {
    MismatchNotPrefix("```JSON" + x, JsonFence, 3);
    MismatchNotPrefix("```\n" + x, JsonFence, 3);
  }

  /** A fence followed by a final newline is not at the very end, so it stays. */
  lemma FenceBeforeNewlineKept(x: string)
    ensures StripTrailingFence(x + Fence + "\n") == x + Fence + "\n"
  {
    var s := x + Fence + "\n";
    assert s[|s| - 1] == '\n';
  }

  /** The prompts the (opaque) prompt builders are called with. */
  datatype Prompt =
    | QuestionAnswerPrompt(role: JsValue, experience: JsValue, topicsToFocus: JsValue, numberOfQuestions: JsValue)
    | ConceptExplainPrompt(question: JsValue)

  /** What the call to the text-generation service did: it produced response
      text, or it threw with a message. */
  datatype Generation = Generated(text: string) | GenerationFailed(message: string)

  /** What `JSON.parse` did with the cleaned text. */
  datatype ParseResult = Parsed(value: JsValue) | ParseFailed(message: string)

  /** The HTTP reply of a handler. */
  datatype AiOutcome = MissingFields | Failed(error: string) | Succeeded(data: JsValue) {
    function Status(): int {
      match this
      case MissingFields => 400
      case Failed(_) => 500
      case Succeeded(_) => 200
    }

    function Message(): string
      requires !Succeeded?
    {
      if MissingFields? then MissingFieldsMessage else FailureMessage
    }
  }

  predicate QuestionFieldsPresent(body: map<string, JsValue>) {
    && Truthy(Field(body, "role"))
    && Truthy(Field(body, "experience"))
    && Truthy(Field(body, "topicsToFocus"))
    && Truthy(Field(body, "numberOfQuestions"))
  }

  function QuestionPromptOf(body: map<string, JsValue>): Prompt {
    QuestionAnswerPrompt(Field(body, "role"), Field(body, "experience"),
                         Field(body, "topicsToFocus"), Field(body, "numberOfQuestions"))
  }

  /** POST /api/ai/generate-questions. */
  function GenerateInterviewQuestions(body: map<string, JsValue>, generate: Prompt -> Generation,
                                      parse: string -> ParseResult): (r: AiOutcome)
    ensures r.MissingFields? <==> !QuestionFieldsPresent(body)
    ensures r.Succeeded? <==>
              && QuestionFieldsPresent(body)
              && generate(QuestionPromptOf(body)).Generated?
              && parse(Clean(generate(QuestionPromptOf(body)).text)).Parsed?
    ensures r.Succeeded? ==> r.data == parse(Clean(generate(QuestionPromptOf(body)).text)).value
    ensures r.Failed? && generate(QuestionPromptOf(body)).GenerationFailed? ==>
              r.error == generate(QuestionPromptOf(body)).message
  {
    if !QuestionFieldsPresent(body) then MissingFields
    else
      match generate(QuestionPromptOf(body))
      case GenerationFailed(m) => Failed(m)
      case Generated(raw) =>
        match parse(Clean(raw))
        case ParseFailed(m) => Failed(m)
        case Parsed(v) => Succeeded(v)
  }

  /** POST /api/ai/generate-explanation. */
  function GenerateConceptExplanation(body: map<string, JsValue>, generate: Prompt -> Generation,
                                      parse: string -> ParseResult): (r: AiOutcome)
    ensures r.MissingFields? <==> !Truthy(Field(body, "question"))
    ensures r.Succeeded? <==>
              && Truthy(Field(body, "question"))
              && generate(ConceptExplainPrompt(Field(body, "question"))).Generated?
              && parse(Clean(generate(ConceptExplainPrompt(Field(body, "question"))).text)).Parsed?
    ensures r.Succeeded? ==>
              r.data == parse(Clean(generate(ConceptExplainPrompt(Field(body, "question"))).text)).value
  {
    var question := Field(body, "question");
    if !Truthy(question) then MissingFields
    else
      match generate(ConceptExplainPrompt(question))
      case GenerationFailed(m) => Failed(m)
      case Generated(raw) =>
        match parse(Clean(raw))
        case ParseFailed(m) => Failed(m)
        case Parsed(v) => Succeeded(v)
  }

  /** A request missing a required field is answered 400 before the generator
      is consulted: the reply is the same whatever the generator or parser do. */
  lemma GateSkipsGeneration(body: map<string, JsValue>, g1: Prompt -> Generation, g2: Prompt -> Generation,
                            p1: string -> ParseResult, p2: string -> ParseResult)
    requires !QuestionFieldsPresent(body)
    ensures GenerateInterviewQuestions(body, g1, p1) == GenerateInterviewQuestions(body, g2, p2)
    ensures GenerateInterviewQuestions(body, g1, p1).Status() == 400
    ensures GenerateInterviewQuestions(body, g1, p1).Message() == "Missing Required Fields!"
  {
  }

  /** Every thrown failure, in either handler, is a 500 with the same message. */
  lemma FailuresAre500(body: map<string, JsValue>, generate: Prompt -> Generation, parse: string -> ParseResult)
    ensures GenerateInterviewQuestions(body, generate, parse).Failed? ==>
              && GenerateInterviewQuestions(body, generate, parse).Status() == 500
              && GenerateInterviewQuestions(body, generate, parse).Message() == "Failed to generate questions"
    ensures GenerateConceptExplanation(body, generate, parse).Failed? ==>
              && GenerateConceptExplanation(body, generate, parse).Status() == 500
              && GenerateConceptExplanation(body, generate, parse).Message() == "Failed to generate questions"
  {
  }

  /** Once past their gates, the two handlers treat the generator's text
      identically: the same generation outcome yields the same reply. */
  lemma HandlersShareCleaning(qBody: map<string, JsValue>, eBody: map<string, JsValue>,
                              generate: Prompt -> Generation, parse: string -> ParseResult)
    requires QuestionFieldsPresent(qBody) && Truthy(Field(eBody, "question"))
    requires generate(QuestionPromptOf(qBody)) == generate(ConceptExplainPrompt(Field(eBody, "question")))
    ensures GenerateInterviewQuestions(qBody, generate, parse) == GenerateConceptExplanation(eBody, generate, parse)
  {
  }
}
