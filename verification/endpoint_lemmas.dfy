/**
  Properties of the `/translate` handler that relate several calls, or the
  handler and the parser behind it.
 */
module EndpointLemmas {
  import opened Outcomes
  import opened OutputParser
  import opened TranslateEndpoint

  /** A rejected request never reaches the translator: the exchange is the same whatever the translator would do. */
  lemma RejectionIgnoresTranslator(req: Request, t1: Request -> TranslatorOutcome, t2: Request -> TranslatorOutcome)
    requires !Accepted(req)
    ensures HandleTranslate(req, t1) == HandleTranslate(req, t2)
  {
  }

  /** The handler consults the translator only on the request it was given. */
  lemma OnlyThisRequestIsTranslated(req: Request, t1: Request -> TranslatorOutcome, t2: Request -> TranslatorOutcome)
    requires t1(req) == t2(req)
    ensures HandleTranslate(req, t1) == HandleTranslate(req, t2)
  {
  }

  /** A reply with no fenced code block: the parser finds no code section in `x`. */
  lemma NoCodeInPlainReply()
    ensures ParseGPTOutput("x").translatedCode == []
  {
    assert LocateFolded(CodeSection, "x").None? by {
      assert PatternAt(CodeSection, "x", 0).None?;
      assert PatternAt(CodeSection, "x", 1).None?;
    }
  }

  /**
    As written, the incomplete path keeps the parser's empty array: for a
    non-empty reply without a code section (such as `x`), the client receives
    `translatedCode: []` with `fallback: true`, and the code sentinel is never sent.
   */
  lemma EmptyCodeSectionReachesClient(req: Request, reply: string)
    requires Accepted(req) && reply != "" && ParseGPTOutput(reply).translatedCode == []
    ensures ServeReply(req, Some(reply)).response.body.fallback
    ensures ServeReply(req, Some(reply)).response.body.sections.translatedCode == Lines([])
    ensures ServeReply(req, Some(reply)).response.body.sections.translatedCode != Text(CodeSentinel)
  {
  }

  /** With the intended fallback the same reply is answered with the code sentinel. */
  lemma IntendedFallbackSendsCodeSentinel(req: Request, reply: string)
    requires Accepted(req) && reply != "" && ParseGPTOutput(reply).translatedCode == []
    ensures ServeReplyIntended(req, Some(reply)).response.body == SectionsBody(
              IntendedFallbackSections(ToSections(ParseGPTOutput(reply))), true)
    ensures ServeReplyIntended(req, Some(reply)).response.body.sections.translatedCode == Text(CodeSentinel)
  {
  }

  /** The intended handler differs from the written one only on the incomplete path. */
  lemma IntendedAgreesOutsideIncompletePath(req: Request, translator: Request -> TranslatorOutcome)
    requires !Accepted(req) || translator(req).Threw? || IsComplete(translator(req).result)
    ensures HandleTranslateIntended(req, translator) == HandleTranslate(req, translator)
  {
  }
}
