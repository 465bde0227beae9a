/** `run_extraction_pipeline` of preprocess/run_pipeline.py: build the
    extractor, load the documents, extract each one and write the JSON
    output. The output file is modelled by its state afterwards; whether
    opening it or dumping into it fails is an input. */
module Pipeline {
  import opened Results
  import opened Dicts
  import opened Json
  import opened Loading
  import opened Extraction

  /** `open(output_file, 'w')` raises (the file is left as it was), or
      `json.dump` raises after `open` truncated the file (it is left empty
      or holding a prefix of the JSON text). */
  datatype WriteFault = OpenFails(message: string) | DumpFails(message: string)

  /** The output file after the call. */
  datatype OutputFile = Untouched | Written(value: Value) | Truncated

  /** The call raises, or it returns a value; either way the output file is
      left in some state. */
  datatype Outcome =
    | Raised(error: string, file: OutputFile)
    | Returned(file: OutputFile, result: Value)

  /** `with open(output_file, 'w') as f: json.dump(v, f)`: the file state and
      the message of the exception it raised, if any. */
  function WriteJson(v: Value, fault: Option<WriteFault>): (r: (OutputFile, Option<string>))
    ensures fault.None? <==> r.1.None?
    ensures fault.None? ==> r.0 == Written(v)
    ensures fault.Some? ==> r.1 == Some(fault.value.message)
    ensures fault.Some? && fault.value.OpenFails? ==> r.0 == Untouched
    ensures fault.Some? && fault.value.DumpFails? ==> r.0 == Truncated
  {
    match fault
    case None => (Written(v), None)
    case Some(OpenFails(m)) => (Untouched, Some(m))
    case Some(DumpFails(m)) => (Truncated, Some(m))
  }

  /** The JSON value the batch writes: one record per document, in order. */
  function ResultList(chain: string -> ChainOutcome, docs: seq<Document>): (r: seq<Value>)
    ensures |r| == |docs|
    ensures forall i :: 0 <= i < |docs| ==> r[i] == Obj(Extract(chain, docs[i]))
  {
    if |docs| == 0 then []
    else [Obj(Extract(chain, docs[0]))] + ResultList(chain, docs[1..])
  }

  /** The pipeline. `setupError` is what the extractor's LangChain set-up
      raises, if anything, and `writeFault` how writing the output fails, if
      it does. The constructor and the empty-input write sit outside the
      `try`, so their exceptions escape; `extract_from_document` catches its
      own, so inside the `try` only the write can raise. */
  function RunExtractionPipeline(
    template: Option<string>, apiKey: Option<string>, model: string, setupError: Option<string>,
    input: InputPath, chain: string -> ChainOutcome, writeFault: Option<WriteFault>): (r: Outcome)
    ensures NewExtractor(template, apiKey, model, setupError).Err? ==>
      r == Raised(NewExtractor(template, apiKey, model, setupError).error, Untouched)
    ensures r.Raised? <==>
      NewExtractor(template, apiKey, model, setupError).Err? || (LoadDocuments(input) == [] && writeFault.Some?)
    ensures r.Returned? && writeFault.None? ==> r.file.Written?
    ensures r.Returned? && writeFault.None? && LoadDocuments(input) != [] ==> r.file == Written(r.result)
    ensures r.Returned? && writeFault.Some? ==> r.result == Obj([("error", Str(writeFault.value.message))])
  {
    match NewExtractor(template, apiKey, model, setupError)
    case Err(e) => Raised(e, Untouched)
    case Ok(_) =>
      var docs := LoadDocuments(input);
      if |docs| == 0 then
        var w := WriteJson(if input.Directory? then List([]) else Obj([]), writeFault);
        if w.1.Some? then Raised(w.1.value, w.0) else Returned(w.0, Obj([]))
      else
        var out := if input.FilePath? then Obj(Extract(chain, docs[0])) else List(ResultList(chain, docs));
        var w := WriteJson(out, writeFault);
        if w.1.Some? then Returned(w.0, Obj([("error", Str(w.1.value))])) else Returned(w.0, out)
  }

  /** A missing template raises before anything is loaded or written. */
  lemma MissingTemplateRaises(apiKey: Option<string>, model: string, setupError: Option<string>,
    input: InputPath, chain: string -> ChainOutcome, writeFault: Option<WriteFault>)
    ensures RunExtractionPipeline(None, apiKey, model, setupError, input, chain, writeFault)
      == Raised(MissingTemplate, Untouched)
  {
  }

  /** A failing client or prompt set-up escapes the same way. */
  lemma SetupFailureRaises(template: string, apiKey: Option<string>, model: string, message: string,
    input: InputPath, chain: string -> ChainOutcome, writeFault: Option<WriteFault>)
    ensures RunExtractionPipeline(Some(template), apiKey, model, Some(message), input, chain, writeFault)
      == Raised(message, Untouched)
  {
  }

  /** No documents: a directory gets `[]` written, anything else `{}`, and
      the call returns `{}`; a failing write raises instead. */
  lemma NoDocuments(template: string, apiKey: Option<string>, model: string, input: InputPath,
    chain: string -> ChainOutcome, writeFault: Option<WriteFault>)
    requires LoadDocuments(input) == []
    ensures var o := RunExtractionPipeline(Some(template), apiKey, model, None, input, chain, writeFault);
      && (writeFault.None? ==>
            o == Returned(Written(if input.Directory? then List([]) else Obj([])), Obj([])))
      && (writeFault.Some? ==>
            o == Raised(writeFault.value.message, if writeFault.value.OpenFails? then Untouched else Truncated))
  {
  }

  /** A single file: only its first document is extracted, and that record
      is both written and returned. */
  lemma FileInputFirstDocument(template: string, apiKey: Option<string>, model: string,
    path: string, c: Contents, chain: string -> ChainOutcome)
    requires LoadDocuments(FilePath(path, c)) != []
    ensures var o := RunExtractionPipeline(Some(template), apiKey, model, None, FilePath(path, c), chain, None);
      o.Returned? && o.file == Written(o.result)
      && o.result == Obj(Extract(chain, LoadDocuments(FilePath(path, c))[0]))
  {
  }

  /** A directory: one record per document, in loading order, written and
      returned. */
  lemma DirectoryInputOnePerDocument(template: string, apiKey: Option<string>, model: string,
    dir: string, entries: seq<Entry>, chain: string -> ChainOutcome)
    requires LoadDocuments(Directory(dir, entries)) != []
    ensures var docs := LoadDocuments(Directory(dir, entries));
      var o := RunExtractionPipeline(Some(template), apiKey, model, None, Directory(dir, entries), chain, None);
      o.Returned? && o.file == Written(o.result) && o.result.List?
      && |o.result.items| == |docs|
      && forall i :: 0 <= i < |docs| ==> o.result.items[i] == Obj(Extract(chain, docs[i]))
  {
  }

  /** Once documents exist, an exception while writing is caught and
      reported as `{"error": message}`; the file is untouched when `open`
      failed and truncated when `json.dump` did. */
  lemma WriteFailureReported(template: string, apiKey: Option<string>, model: string,
    input: InputPath, chain: string -> ChainOutcome, fault: WriteFault)
    requires LoadDocuments(input) != []
    ensures RunExtractionPipeline(Some(template), apiKey, model, None, input, chain, Some(fault)) ==
      Returned(if fault.OpenFails? then Untouched else Truncated, Obj([("error", Str(fault.message))]))
  {
  }

  /** A file the loader fails on leaves the directory's output as if the
      file were not there. */
  lemma UnreadableFileLeavesNoTrace(template: Option<string>, apiKey: Option<string>, model: string,
    setupError: Option<string>, dir: string, a: seq<Entry>, name: string, b: seq<Entry>,
    chain: string -> ChainOutcome, writeFault: Option<WriteFault>)
    ensures RunExtractionPipeline(template, apiKey, model, setupError,
        Directory(dir, a + [Entry(name, Unreadable)] + b), chain, writeFault)
      == RunExtractionPipeline(template, apiKey, model, setupError, Directory(dir, a + b), chain, writeFault)
  {
    UnreadableEntryIgnored(dir, a, name, b);
  }
}
