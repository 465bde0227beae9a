/** `DocumentExtractor` of preprocess/extractor.py: one structured-output
    call per document, with every failure turned into an error record. The
    language model is not modelled; its answer for a document's text is a
    `ChainOutcome` given from outside. */
module Extraction {
  import opened Results
  import opened Dicts
  import opened Json
  import opened Text
  import opened Loading

  const DefaultModel := "gpt-4o-mini"

  const MissingTemplate := "extraction_template must be provided to DocumentExtractor."

  /** A configured extractor: the system prompt, the model name and the API
      key handed to the client. */
  datatype Extractor = Extractor(template: string, model: string, apiKey: Option<string>)

  /** What `chain.ainvoke` does: raise with a message, return None, or
      return a model instance whose `.dict()` is the record. */
  datatype ChainOutcome = Raises(message: string) | ReturnsNone | Returns(data: Record)

  /** The constructor. A missing template is a `ValueError`; after that check
      the LangChain set-up (the `ChatOpenAI` client, which raises without an
      API key in the argument or the environment, and the prompt template,
      which raises on unbalanced braces) may raise as well: `setupError` is
      the message of that exception, if any. */
  function NewExtractor(template: Option<string>, apiKey: Option<string>, model: string,
    setupError: Option<string>): (r: Result<Extractor, string>)
    ensures r.Ok? <==> template.Some? && setupError.None?
    ensures template.None? ==> r == Err(MissingTemplate)
    ensures template.Some? && setupError.Some? ==> r == Err(setupError.value)
    ensures r.Ok? ==> r.value == Extractor(template.value, model, apiKey)
  {
    match template
    case None => Err(MissingTemplate)
    case Some(t) =>
      if setupError.Some? then Err(setupError.value) else Ok(Extractor(t, model, apiKey))
  }

  const NoneError := "Extraction returned None"

  const ErrorPrefix := "Error processing document: "

  /** `extract_from_document`: the record the model returned, or a record
      holding only `error`. It never raises. */
  function Extract(chain: string -> ChainOutcome, doc: Document): (r: Record)
    ensures chain(doc.pageContent).Returns? ==> r == chain(doc.pageContent).data
    ensures !chain(doc.pageContent).Returns? ==> KeysOf(r) == ["error"] && Get(r, "error").Str?
  {
    match chain(doc.pageContent)
    case Raises(m) => [("error", Str(ErrorPrefix + m))]
    case ReturnsNone => [("error", Str(NoneError))]
    case Returns(data) => data
  }

  /** The exception's message can be read back from the error record, and
      the error of a None answer is told apart from it by its prefix. */
  lemma ExtractErrorMessage(chain: string -> ChainOutcome, doc: Document)
    ensures chain(doc.pageContent).Raises? ==>
      var e := Get(Extract(chain, doc), "error").s;
      StartsWith(e, ErrorPrefix) && e[|ErrorPrefix|..] == chain(doc.pageContent).message
    ensures chain(doc.pageContent).ReturnsNone? ==>
      Get(Extract(chain, doc), "error") == Str(NoneError)
      && !StartsWith(NoneError, ErrorPrefix)
  {
    var r := Extract(chain, doc);
    if !chain(doc.pageContent).Returns? {
      LookupFirst(r, 0, "error");
    }
    if chain(doc.pageContent).ReturnsNone? {
      assert |NoneError| < |ErrorPrefix|;
    }
  }

  /** The outcome depends on the document's text only. */
  lemma ExtractReadsOnlyText(chain: string -> ChainOutcome, a: Document, b: Document)
    requires a.pageContent == b.pageContent
    ensures Extract(chain, a) == Extract(chain, b)
  {
  }
}
