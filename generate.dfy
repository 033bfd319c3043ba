/** The generate endpoint: destructure the JSON body with defaults, refuse
    a missing prompt, interpolate everything raw into one prompt sentence,
    make one call to the language model and return its text unchanged. */
module Generate {

  import opened Js
  import opened Http
  import VerifyToken

  /** The body fields the handler destructures. */
  datatype GenerateBody = GenerateBody(prompt: Scalar, tone: Scalar, length: Scalar, language: Scalar)

  /** A destructuring default `{ x = d }`: only an absent key takes it;
      `null` and `''` are kept. */
  function OrDefault(v: Scalar, d: string): Scalar {
    if v.Missing? then Str(d) else v
  }

  const Opening: string := "Generate an email in a "
  const AfterTone: string := " tone and "
  const AfterLength: string := " length in "
  const AfterLanguage: string := ". Here is the user message: "

  /** `fullPrompt`, the one-sentence template. */
  function FullPrompt(tone: string, length: string, language: string, prompt: string): string {
    Opening + tone + AfterTone + length + AfterLength + language + AfterLanguage + prompt
  }

  /** The selectors and the prompt appear verbatim, in the order tone,
      length, language, prompt, with the fixed words between them. */
  lemma FullPromptLayout(tone: string, length: string, language: string, prompt: string)
    ensures var p := FullPrompt(tone, length, language, prompt);
      var t := |Opening|;
      var l := t + |tone| + |AfterTone|;
      var g := l + |length| + |AfterLength|;
      var m := g + |language| + |AfterLanguage|;
      && p[..t] == Opening
      && p[t..t + |tone|] == tone
      && p[l..l + |length|] == length
      && p[g..g + |language|] == language
      && p[m..] == prompt
  {
    Layout(Opening, tone, AfterTone, length, AfterLength, language, AfterLanguage, prompt, "");
    assert FullPrompt(tone, length, language, prompt)
      == Opening + tone + AfterTone + length + AfterLength + language + AfterLanguage + prompt + "";
  }

  /** What `model.generateContent(fullPrompt)` and `response.text()` give. */
  datatype ModelReply = Generated(text: string) | ModelError

  /** The success body `{ generated_email }`. */
  datatype GenerateResponse = GenerateResponse(generatedEmail: string)

  /** The reply and the prompts sent to the model, in order. */
  datatype Outcome = Outcome(reply: Reply<GenerateResponse>, prompts: seq<string>)

  /** The prompt the handler composes from a body whose prompt is truthy. */
  function ComposedPrompt(body: GenerateBody): string {
    FullPrompt(Printed(OrDefault(body.tone, "formal")), Printed(OrDefault(body.length, "medium")),
               Printed(OrDefault(body.language, "english")), Printed(body.prompt))
  }

  /** The handler, with `jwt.verify` and the model as oracles. */
  function Handle(httpMethod: string, authorization: Option<string>, body: GenerateBody,
                  verify: VerifyToken.Verifier, model: string -> ModelReply): (r: Outcome)
    ensures httpMethod != "POST" ==> r == Outcome(Error(405, "Method not allowed"), [])
    ensures httpMethod == "POST" && VerifyToken.Gate(authorization, verify).Rejected? ==>
      r == Outcome(Error(401, VerifyToken.Gate(authorization, verify).error), [])
    ensures httpMethod == "POST" && VerifyToken.Gate(authorization, verify).Passed? && !Truthy(body.prompt) ==>
      r == Outcome(Error(400, "Prompt is required"), [])
    ensures |r.prompts| <= 1
    ensures r.prompts != [] <==>
      httpMethod == "POST" && VerifyToken.Gate(authorization, verify).Passed? && Truthy(body.prompt)
    ensures r.prompts != [] ==> r.prompts == [ComposedPrompt(body)]
    ensures r.prompts != [] && model(r.prompts[0]).ModelError? ==>
      r.reply == Error(500, "Error generating email with Gemini")
    ensures r.reply.Ok? ==> |r.prompts| == 1 && model(r.prompts[0]) == Generated(r.reply.body.generatedEmail)
  {
    if httpMethod != "POST" then Outcome(Error(405, "Method not allowed"), [])
    else match VerifyToken.Gate(authorization, verify)
      case Rejected(message) => Outcome(Error(401, message), [])
      case Passed(_) =>
        if !Truthy(body.prompt) then Outcome(Error(400, "Prompt is required"), [])
        else
          var fullPrompt := ComposedPrompt(body);
          match model(fullPrompt)
          case Generated(text) => Outcome(Ok(GenerateResponse(text)), [fullPrompt])
          case ModelError => Outcome(Error(500, "Error generating email with Gemini"), [fullPrompt])
  }

  /** A request other than POST gets 405 whatever its token: the gate is
      never consulted. */
  lemma NonPostBeforeGate(httpMethod: string, authorization: Option<string>, body: GenerateBody,
                          verify1: VerifyToken.Verifier, verify2: VerifyToken.Verifier,
                          model: string -> ModelReply)
    requires httpMethod != "POST"
    ensures Handle(httpMethod, authorization, body, verify1, model)
         == Handle(httpMethod, authorization, body, verify2, model)
         == Outcome(Error(405, "Method not allowed"), [])
  {
  }

  /** Once the token passes, an absent, null or empty prompt gets 400 and
      the model is not called. */
  lemma PromptRequired(authorization: Option<string>, body: GenerateBody,
                       verify: VerifyToken.Verifier, model: string -> ModelReply)
    requires VerifyToken.Gate(authorization, verify).Passed?
    requires body.prompt in {Missing, Null, Str("")}
    ensures Handle("POST", authorization, body, verify, model) == Outcome(Error(400, "Prompt is required"), [])
  {
  }

  /** An admitted request with a prompt makes exactly one model call, with
      the absent selectors defaulted to formal, medium and english; the
      model's text comes back unmodified, and any model failure gives 500. */
  lemma OneCallWithDefaults(authorization: Option<string>, prompt: string,
                            verify: VerifyToken.Verifier, model: string -> ModelReply)
    requires VerifyToken.Gate(authorization, verify).Passed?
    requires prompt != ""
    ensures var r := Handle("POST", authorization, GenerateBody(Str(prompt), Missing, Missing, Missing), verify, model);
      var sent := FullPrompt("formal", "medium", "english", prompt);
      && r.prompts == [sent]
      && (model(sent).Generated? ==> r.reply == Ok(GenerateResponse(model(sent).text)))
      && (model(sent).ModelError? ==> r.reply == Error(500, "Error generating email with Gemini"))
  {
  }

  /** Selectors are interpolated raw: a present value, even `null` or one
      no table knows, is never replaced by the default. */
  lemma SelectorsRaw(authorization: Option<string>, prompt: string, tone: string,
                     verify: VerifyToken.Verifier, model: string -> ModelReply)
    requires VerifyToken.Gate(authorization, verify).Passed?
    requires prompt != ""
    ensures Handle("POST", authorization, GenerateBody(Str(prompt), Str(tone), Null, Missing), verify, model).prompts
         == [FullPrompt(tone, "null", "english", prompt)]
  {
  }
}
