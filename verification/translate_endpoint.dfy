/**
  The backend's `POST /translate` handler. It rejects a request whose
  `javaCode` or `targetLanguage` is falsy, calls the translator otherwise, and
  answers with the translator's sections, with a fallback built from them when
  one is empty, or with three fixed sentinel strings when the translator
  throws. Every request that reaches the translator is logged exactly once.

  The translator, the session id (built from the clock) and the logging
  service are outside the model: the translator's outcome is a parameter and
  the log calls are returned as data.
 */
module TranslateEndpoint {
  import opened Outcomes
  import opened OutputParser

  /** A request-body field as JavaScript sees it; numbers are restricted to integers. */
  datatype JsValue = Undefined | Null | Bool(b: bool) | Number(n: int) | Str(s: string) | Object

  /** JavaScript truthiness: what `!v` negates. */
  predicate Truthy(v: JsValue) {
    match v
    case Undefined => false
    case Null => false
    case Bool(b) => b
    case Number(n) => n != 0
    case Str(s) => s != ""
    case Object => true
  }

  datatype Request = Request(javaCode: JsValue, targetLanguage: JsValue)

  /** The request passes the handler's validation. */
  predicate Accepted(req: Request) {
    Truthy(req.javaCode) && Truthy(req.targetLanguage)
  }

  /** One section of a result or of a response body: absent (`null` or `undefined`), an array of lines, or one string. */
  datatype Field = Absent | Lines(lines: seq<string>) | Text(text: string)

  /** `field?.length` used as a condition: present and of non-zero length. */
  predicate HasLength(f: Field) {
    match f
    case Absent => false
    case Lines(ls) => |ls| > 0
    case Text(t) => |t| > 0
  }

  /** `field || fallback`. An array is truthy even when empty; a string only when non-empty. */
  function Or(f: Field, fallback: string): (r: Field)
    ensures f.Lines? ==> r == f
    ensures f.Absent? ==> r == Text(fallback)
    ensures f.Text? ==> r == (if f.text == "" then Text(fallback) else f)
  {
    match f
    case Absent => Text(fallback)
    case Lines(_) => f
    case Text(t) => if t == "" then Text(fallback) else f
  }

  datatype Sections = Sections(translatedCode: Field, debuggingSteps: Field, algorithm: Field)

  /** The `hasAll` test: all three sections have non-zero length. */
  predicate IsComplete(s: Sections) {
    HasLength(s.translatedCode) && HasLength(s.debuggingSteps) && HasLength(s.algorithm)
  }

  /** What the translator did: returned a result, or threw an error carrying a message. */
  datatype TranslatorOutcome = Returned(result: Sections) | Threw(message: string)

  /** A JSON response body: the 400 error object, or the three sections, with `fallback: true` when `fallback` holds. */
  datatype Body = ErrorBody(error: string) | SectionsBody(sections: Sections, fallback: bool)

  datatype Response = Response(status: nat, body: Body)

  /** The status argument of `logTranslation`. */
  datatype LogTag = SuccessTag | FallbackTag

  /** One call into the logging service. */
  datatype LogEntry =
    | TranslationLog(tag: LogTag, logged: Body, input: Request)
    | ErrorLog(input: Request, message: string)

  /**
    What one request produced: the arguments the translator was called with
    (none when it was not called), the response, and the log calls in order.
   */
  datatype Exchange = Exchange(translatorInput: Option<Request>, response: Response, logs: seq<LogEntry>)

  const MissingFields: string := "Missing javaCode or targetLanguage"
  const CodeSentinel: string := "// Translation unavailable due to backend error."
  const StepsSentinel: string := "\U{26A0}\U{FE0F} OpenRouter could not provide debugging steps."
  const AlgorithmSentinel: string := "\U{26A0}\U{FE0F} Algorithm generation failed."

  /** The body sent when the translator throws: the three sentinels as plain strings. */
  const SentinelSections: Sections := Sections(Text(CodeSentinel), Text(StepsSentinel), Text(AlgorithmSentinel))

  /** The fallback built from an incomplete result, field by field with `||`. */
  function FallbackSections(r: Sections): (f: Sections)
    ensures f.translatedCode == Or(r.translatedCode, CodeSentinel)
    ensures f.debuggingSteps == Or(r.debuggingSteps, StepsSentinel)
    ensures f.algorithm == Or(r.algorithm, AlgorithmSentinel)
  {
    Sections(Or(r.translatedCode, CodeSentinel), Or(r.debuggingSteps, StepsSentinel), Or(r.algorithm, AlgorithmSentinel))
  }

  /** The handler, given what the translator does for each request. */
  function HandleTranslate(req: Request, translator: Request -> TranslatorOutcome): (x: Exchange)
    ensures x.translatorInput.Some? <==> Accepted(req)
    ensures !Accepted(req) ==> x.response == Response(400, ErrorBody(MissingFields)) && x.logs == []
    ensures Accepted(req) ==> x.translatorInput == Some(req) && x.response.status == 200 && |x.logs| == 1
    ensures Accepted(req) && translator(req).Threw? ==>
              && x.response.body == SectionsBody(SentinelSections, true)
              && x.logs == [ErrorLog(req, translator(req).message)]
    ensures Accepted(req) && translator(req).Returned? && IsComplete(translator(req).result) ==>
              && x.response.body == SectionsBody(translator(req).result, false)
              && x.logs == [TranslationLog(SuccessTag, x.response.body, req)]
    ensures Accepted(req) && translator(req).Returned? && !IsComplete(translator(req).result) ==>
              && x.response.body == SectionsBody(FallbackSections(translator(req).result), true)
              && x.logs == [TranslationLog(FallbackTag, x.response.body, req)]
  {
    if !Truthy(req.javaCode) || !Truthy(req.targetLanguage) then
      Exchange(None, Response(400, ErrorBody(MissingFields)), [])
    else
      match translator(req)
      case Threw(message) =>
        Exchange(Some(req), Response(200, SectionsBody(SentinelSections, true)), [ErrorLog(req, message)])
      case Returned(result) =>
        if !IsComplete(result) then
          var body := SectionsBody(FallbackSections(result), true);
          Exchange(Some(req), Response(200, body), [TranslationLog(FallbackTag, body, req)])
        else
          var body := SectionsBody(result, false);
          Exchange(Some(req), Response(200, body), [TranslationLog(SuccessTag, body, req)])
  }

  /** The parser's record as the translator returns it: three arrays, possibly empty. */
  function ToSections(t: Translation): (s: Sections)
    ensures s.translatedCode.Lines? && s.debuggingSteps.Lines? && s.algorithm.Lines?
    ensures IsComplete(s) <==> t.IsComplete()
  {
    Sections(Lines(t.translatedCode), Lines(t.debuggingSteps), Lines(t.algorithm))
  }

  /** The translator backed by a model reply: `useOpenRouter` with `content` as the reply text. */
  function OpenRouterTranslator(content: Option<string>): (translator: Request -> TranslatorOutcome)
    ensures forall req :: translator(req).Threw? <==> (content.None? || content.value == "")
  {
    req => match UseOpenRouter(content)
           case Success(t) => Returned(ToSections(t))
           case Failure(e) => Threw(e)
  }

  /**
    The endpoint in front of the real translator, `content` being the model's
    reply text. An empty reply ends in the sentinel body and an error log; any
    other reply is answered with the parser's three arrays as they are, with
    `fallback` set exactly when one of them is empty: the sentinels of the
    incomplete path are never sent.
   */
  function ServeReply(req: Request, content: Option<string>): (x: Exchange)
    requires Accepted(req)
    ensures (content.None? || content.value == "") ==>
              && x.response == Response(200, SectionsBody(SentinelSections, true))
              && x.logs == [ErrorLog(req, IncompleteReply)]
    ensures content.Some? && content.value != "" ==>
              var t := ParseGPTOutput(content.value);
              && x.response == Response(200, SectionsBody(ToSections(t), !t.IsComplete()))
              && x.logs == [TranslationLog(if t.IsComplete() then SuccessTag else FallbackTag, x.response.body, req)]
  {
    HandleTranslate(req, OpenRouterTranslator(content))
  }

  /**
    The fallback as evidently intended: a section that is missing or empty is
    replaced by its sentinel, so that a fallback never carries an empty section.
   */
  function OrWhenEmpty(f: Field, fallback: string): (r: Field)
    ensures HasLength(f) ==> r == f
    ensures !HasLength(f) ==> r == Text(fallback)
  {
    if HasLength(f) then f else Text(fallback)
  }

  function IntendedFallbackSections(r: Sections): (f: Sections)
    ensures f.translatedCode == OrWhenEmpty(r.translatedCode, CodeSentinel)
    ensures f.debuggingSteps == OrWhenEmpty(r.debuggingSteps, StepsSentinel)
    ensures f.algorithm == OrWhenEmpty(r.algorithm, AlgorithmSentinel)
  {
    Sections(OrWhenEmpty(r.translatedCode, CodeSentinel),
             OrWhenEmpty(r.debuggingSteps, StepsSentinel),
             OrWhenEmpty(r.algorithm, AlgorithmSentinel))
  }

  /** The handler with the intended fallback; everything else is as in `HandleTranslate`. */
  function HandleTranslateIntended(req: Request, translator: Request -> TranslatorOutcome): (x: Exchange)
    ensures x.translatorInput.Some? <==> Accepted(req)
    ensures x.response.body.SectionsBody? ==> IsComplete(x.response.body.sections)
    ensures x.response.body.SectionsBody? && !x.response.body.fallback ==>
              translator(req) == Returned(x.response.body.sections)
  {
    if !Truthy(req.javaCode) || !Truthy(req.targetLanguage) then
      Exchange(None, Response(400, ErrorBody(MissingFields)), [])
    else
      match translator(req)
      case Threw(message) =>
        Exchange(Some(req), Response(200, SectionsBody(SentinelSections, true)), [ErrorLog(req, message)])
      case Returned(result) =>
        if !IsComplete(result) then
          var body := SectionsBody(IntendedFallbackSections(result), true);
          Exchange(Some(req), Response(200, body), [TranslationLog(FallbackTag, body, req)])
        else
          var body := SectionsBody(result, false);
          Exchange(Some(req), Response(200, body), [TranslationLog(SuccessTag, body, req)])
  }

  /** `ServeReply` with the intended fallback: every section of every answer has content. */
  function ServeReplyIntended(req: Request, content: Option<string>): (x: Exchange)
    requires Accepted(req)
    ensures x.response.status == 200 && x.response.body.SectionsBody? && IsComplete(x.response.body.sections)
    ensures (content.None? || content.value == "") ==> x.response.body == SectionsBody(SentinelSections, true)
    ensures content.Some? && content.value != "" && ParseGPTOutput(content.value).IsComplete() ==>
              x == ServeReply(req, content)
  {
    HandleTranslateIntended(req, OpenRouterTranslator(content))
  }
}
