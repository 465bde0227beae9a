/** The older `DocumentExtractor` of pre/extractor.py. It shares the
    constructor and the chain with the current one, but names the source
    file in its error records and copies `source`, `file_name` and `page`
    from the document's metadata into every successful result. */
module LegacyExtraction {
  import opened Results
  import opened Dicts
  import opened Json
  import opened Text
  import opened Extraction

  /** A document as the old extractor sees it: text, metadata (None when the
      attribute is missing or is not a dict) and an optional `source`
      attribute. */
  datatype LegacyDocument = LegacyDocument(
    pageContent: string,
    metadata: Option<Record>,
    sourceAttr: Option<Value>)

  /** `x or y`. */
  function Or(x: Value, y: Value): Value {
    if Truthy(x) then x else y
  }

  /** The name used in log lines and error records: metadata `source`, else
      metadata `file_path`, else the `source` attribute, else "unknown";
      a falsy candidate is skipped. */
  function SourceFile(doc: LegacyDocument): (r: Value)
    ensures Truthy(r)
  {
    var fromMetadata := match doc.metadata
      case Some(md) => Or(Get(md, "source"), Get(md, "file_path"))
      case None => Null;
    var candidate := if Truthy(fromMetadata) then fromMetadata else doc.sourceAttr.GetOr(Null);
    if Truthy(candidate) then candidate else Str("unknown")
  }

  /** The metadata entry the result's `source` and `file_name` come from:
      `source` when present (whatever its value), else `file_path`. */
  function MetadataPath(md: Record): (r: Option<Value>)
    ensures r.Some? <==> Has(md, "source") || Has(md, "file_path")
    ensures Has(md, "source") ==> r == Lookup(md, "source")
    ensures !Has(md, "source") ==> r == Lookup(md, "file_path")
  {
    if Has(md, "source") then Lookup(md, "source")
    else if Has(md, "file_path") then Lookup(md, "file_path")
    else None
  }

  /** `os.path.basename(v)`: only a string has one; anything else raises a
      `TypeError` with this message. */
  function BasenameOf(v: Value): (r: Result<string, string>)
    ensures r.Ok? <==> v.Str?
  {
    match v
    case Str(s) => Ok(Basename(s))
    case _ => Err("expected str, bytes or os.PathLike object, not " + TypeName(v))
  }

  /** `data['source'] = path; data['file_name'] = basename(path)`. */
  function AttachPath(data: Record, path: Value): (r: Result<Record, string>)
    ensures r.Ok? <==> path.Str?
    ensures r.Ok? ==> Lookup(r.value, "source") == Some(path)
    ensures r.Ok? ==> Lookup(r.value, "file_name") == Some(Str(Basename(path.s)))
  {
    match BasenameOf(path)
    case Err(e) => Err(e)
    case Ok(name) => Ok(Set(Set(data, "source", path), "file_name", Str(name)))
  }

  /** The metadata copying of the success branch. */
  function Annotate(data: Record, doc: LegacyDocument): Result<Record, string> {
    match doc.metadata
    case Some(md) =>
      var withPath := match MetadataPath(md)
        case None => Ok(data)
        case Some(p) => AttachPath(data, p);
      (match withPath
       case Err(e) => Err(e)
       case Ok(r) => Ok(AddPage(r, md)))
    case None =>
      match doc.sourceAttr
      case None => Ok(data)
      case Some(v) => AttachPath(data, v)
  }

  const LegacyErrorPrefix := "Error processing document "

  /** The error record: the message and the source file, in that order. */
  function ErrorRecord(sourceFile: Value, message: string): Record {
    [("error", Str(LegacyErrorPrefix + PyStr(sourceFile) + ": " + message)),
     ("source_file", sourceFile)]
  }

  /** `extract_from_document`: never raises. */
  function LegacyExtract(chain: string -> ChainOutcome, doc: LegacyDocument): (r: Record)
    ensures chain(doc.pageContent).ReturnsNone? ==> r == []
    ensures chain(doc.pageContent).Raises? ==>
      r == ErrorRecord(SourceFile(doc), chain(doc.pageContent).message)
  {
    match chain(doc.pageContent)
    case Raises(m) => ErrorRecord(SourceFile(doc), m)
    case ReturnsNone => []
    case Returns(data) =>
      match Annotate(data, doc)
      case Err(e) => ErrorRecord(SourceFile(doc), e)
      case Ok(r) => r
  }

  /** The source-file fallback chain, step by step. */
  lemma SourceFileChain(doc: LegacyDocument)
    ensures doc.metadata.Some? && Truthy(Get(doc.metadata.value, "source")) ==>
      SourceFile(doc) == Get(doc.metadata.value, "source")
    ensures (doc.metadata.Some? && !Truthy(Get(doc.metadata.value, "source"))
      && Truthy(Get(doc.metadata.value, "file_path"))) ==>
      SourceFile(doc) == Get(doc.metadata.value, "file_path")
    ensures (doc.metadata.None? || (!Truthy(Get(doc.metadata.value, "source"))
      && !Truthy(Get(doc.metadata.value, "file_path")))) ==>
      SourceFile(doc) == if doc.sourceAttr.Some? && Truthy(doc.sourceAttr.value)
        then doc.sourceAttr.value else Str("unknown")
  {
  }

  /** An error record has exactly the keys `error` and `source_file`, and
      its message names the source file and ends with the cause. */
  lemma ErrorRecordShape(sourceFile: Value, message: string)
    ensures KeysOf(ErrorRecord(sourceFile, message)) == ["error", "source_file"]
    ensures Get(ErrorRecord(sourceFile, message), "source_file") == sourceFile
    ensures var e := Get(ErrorRecord(sourceFile, message), "error");
      e.Str? && StartsWith(e.s, LegacyErrorPrefix + PyStr(sourceFile) + ": ")
      && EndsWith(e.s, message)
  {
    var r := ErrorRecord(sourceFile, message);
    LookupFirst(r, 0, "error");
    LookupFirst(r, 1, "source_file");
    var e := LegacyErrorPrefix + PyStr(sourceFile) + ": " + message;
    assert e[|e| - |message|..] == message;
  }

  /** A document whose metadata names its file as a string: the result is
      the model's record with `source`, `file_name` (the base name) and, if
      the metadata has it, `page` added; every other key is untouched. */
  lemma MetadataAttached(chain: string -> ChainOutcome, doc: LegacyDocument, path: string)
    requires chain(doc.pageContent).Returns? && doc.metadata.Some?
    requires MetadataPath(doc.metadata.value) == Some(Str(path))
    ensures var r := LegacyExtract(chain, doc);
      var md := doc.metadata.value;
      && Lookup(r, "source") == Some(Str(path))
      && Lookup(r, "file_name") == Some(Str(Basename(path)))
      && (Has(md, "page") ==> Lookup(r, "page") == Lookup(md, "page"))
      && forall k :: k != "source" && k != "file_name" && (k != "page" || !Has(md, "page")) ==>
           Lookup(r, k) == Lookup(chain(doc.pageContent).data, k)
  {
    var data, md := chain(doc.pageContent).data, doc.metadata.value;
    AttachPathOthers(data, path);
    var a := AttachPath(data, Str(path)).value;
    AddPageLookups(a, md);
  }

  function AddPage(r: Record, md: Record): Record {
    if Has(md, "page") then Set(r, "page", Get(md, "page")) else r
  }

  lemma AddPageLookups(r: Record, md: Record)
    ensures Has(md, "page") ==> Lookup(AddPage(r, md), "page") == Lookup(md, "page")
    ensures forall k :: k != "page" || !Has(md, "page") ==> Lookup(AddPage(r, md), k) == Lookup(r, k)
  {
  }

  lemma AttachPathOthers(data: Record, path: string)
    ensures AttachPath(data, Str(path)).Ok?
    ensures forall k :: k != "source" && k != "file_name" ==>
      Lookup(AttachPath(data, Str(path)).value, k) == Lookup(data, k)
  {
  }

  /** Dict metadata naming no path (LangChain's usual `{}`): only `page` is
      copied, if present, and a `source` attribute is ignored because the
      attribute branch is an `elif` of the metadata test. */
  lemma MetadataWithoutPath(chain: string -> ChainOutcome, doc: LegacyDocument)
    requires chain(doc.pageContent).Returns? && doc.metadata.Some?
    requires !Has(doc.metadata.value, "source") && !Has(doc.metadata.value, "file_path")
    ensures var r, data, md := LegacyExtract(chain, doc), chain(doc.pageContent).data, doc.metadata.value;
      && r == AddPage(data, md)
      && (Has(md, "page") ==> Lookup(r, "page") == Lookup(md, "page"))
      && forall k :: k != "page" || !Has(md, "page") ==> Lookup(r, k) == Lookup(data, k)
  {
    AddPageLookups(chain(doc.pageContent).data, doc.metadata.value);
  }

  /** A document with no usable metadata but a string `source` attribute
      gets `source` and `file_name` from it. */
  lemma SourceAttributeAttached(chain: string -> ChainOutcome, doc: LegacyDocument, path: string)
    requires chain(doc.pageContent).Returns? && doc.metadata.None?
    requires doc.sourceAttr == Some(Str(path))
    ensures var r := LegacyExtract(chain, doc);
      && Lookup(r, "source") == Some(Str(path))
      && Lookup(r, "file_name") == Some(Str(Basename(path)))
      && forall k :: k != "source" && k != "file_name" ==>
           Lookup(r, k) == Lookup(chain(doc.pageContent).data, k)
  {
    AttachPathOthers(chain(doc.pageContent).data, path);
  }

  /** With neither metadata nor a `source` attribute the record is returned
      as the model produced it. */
  lemma NothingToAttach(chain: string -> ChainOutcome, doc: LegacyDocument)
    requires chain(doc.pageContent).Returns?
    requires doc.metadata.None? && doc.sourceAttr.None?
    ensures LegacyExtract(chain, doc) == chain(doc.pageContent).data
  {
  }

  /** A path that is not a string makes `basename` raise inside the `try`, so
      a successful extraction still ends as an error record. */
  lemma NonStringPathFails(chain: string -> ChainOutcome, doc: LegacyDocument)
    requires chain(doc.pageContent).Returns?
    requires (doc.metadata.Some? && MetadataPath(doc.metadata.value).Some?
                && !MetadataPath(doc.metadata.value).value.Str?)
          || (doc.metadata.None? && doc.sourceAttr.Some? && !doc.sourceAttr.value.Str?)
    ensures var r := LegacyExtract(chain, doc);
      KeysOf(r) == ["error", "source_file"] && Get(r, "source_file") == SourceFile(doc)
  {
    var v := if doc.metadata.Some? then MetadataPath(doc.metadata.value).value else doc.sourceAttr.value;
    ErrorRecordShape(SourceFile(doc), BasenameOf(v).error);
  }
}
