# cv_extractor extraction core in Dafny

This project models the extraction pipeline of cv_extractor, a tool that turns
résumés (PDF, Word or text files) into structured records by asking a language
model to fill a pydantic schema. It then merges the records of a multi-page or
multi-file batch. The model covers:

- **Loading** (`Processor` in preprocess/run_pipeline.py). The extension
  table has four entries, `.pdf`, `.docx`, `.doc` and `.txt`, and `.doc`
  shares the docx loader.
  - Single-file mode picks a loader from the lower-cased `Path.suffix`, which
    looks at the file name only. A dot-file such as `.pdf` has no suffix and
    is skipped, though a directory's `*.pdf` glob picks it up.
  - Directory mode runs one case-sensitive `*ext` glob per table entry, in
    table order, so `cv.PDF` is read as a file but skipped in a directory.
  - A PDF's pages become one document: the texts are joined with `"\n"` and
    the first page's metadata is kept, with `source` set.
  - A loader that raises contributes nothing.
- **Extraction** (`DocumentExtractor` in preprocess/extractor.py). The
  constructor rejects a missing template. Whatever the LangChain client or
  prompt set-up raises is an input, and it escapes the same way. `extract_from_document` returns the
  model's record, or a record holding only `error`.
- **The legacy extractor** (pre/extractor.py). It has a fallback chain for the
  `source_file` name. Error records name the file. A successful record gets
  `source`, `file_name` and `page` copied from the document's metadata or
  from its `source` attribute. `basename` of a non-string raises inside the
  `try`.
- **The pipeline** (`run_extraction_pipeline`). The constructor and the
  empty-input write sit outside the `try`. A single file yields its first
  document's record. A directory yields one record per document.
  `extract_from_document` catches every exception, so inside the `try` only
  opening or writing the output file can raise, and such a failure becomes
  `{"error": message}`.
- **Post-processing** (preprocess/postprocessing.py). `postprocess`
  removes `None` values.
- **`merge_documents`**:
  - The six list fields are concatenated and de-duplicated by first
    occurrence. The dedup key of a dict is its sorted item tuple, and
    Python's `True == 1` is respected.
  - The eight scalar fields take the first value that is not `None`, `''`,
    `[]` or `{}`.
  - `source`, `file_name` and `page` are popped.
  - The `TypeError`s Python raises are modelled as errors: a truthy number
    or `True` in a list field is not iterable, and a list, or a dict holding
    a list or dict, is not hashable.
- **`run_postprocessing`**. An empty or unparseable file means no results.
  Otherwise the file may hold any JSON value, and `for r in results` with
  `r.items()` decides what happens:
  - None, a bool or a number raises `TypeError`;
  - a list whose items are all dicts is post-processed and merged;
  - anything else raises `AttributeError` at its first item that is not a
    dict. A non-empty dict iterates over its key strings, so the single
    record the pipeline writes for one file is rejected.
- **The CV schema** (preprocess/schemas/cv_schema.py):
  - its required and optional fields;
  - the `before` validator that turns a `None` list field into `[]`;
  - validation of a JSON-like record, and the round trip of dumping a
    validated record and validating it again.
- **Two helpers of app/functions.py**: `validate_api_key` and
  `flatten_dict`.

Values are JSON-like (`Json.Value`). A Python dict is an insertion-ordered
sequence of key/value pairs (`Dicts.Dict`). Assigning to a key keeps its
position, `pop` removes it, and `dict(items)` keeps a key's first position and
its last value.

Where the docstrings and the code disagree, the model follows the code:

- `merge_documents`' docstring promises top-level `sources` and `pages`
  lists. The code builds neither.
- Its dedup keys are Python hash keys, so unhashable items raise. They are
  not compared by structural equality.
- `run_sync_or_async` has no timeout.

## Model

| member | source | states |
|---|---|---|
| Loading.LoaderTable | preprocess/run_pipeline.py:13-18 | the extension table maps exactly `.pdf`, `.docx`, `.doc` and `.txt` to a loader; `.doc` and `.docx` both use the docx loader, and every other extension has none |
| Loading.LoadPdf | preprocess/run_pipeline.py:20-36 | a PDF gives at most one document, and none exactly when the loader raises or returns no pages |
| Loading.PdfMetadata | preprocess/run_pipeline.py:30-32 | the PDF document's `source` is the file path; every other metadata entry is the first page's; if the first page already had a `source` key, the key order is unchanged |
| Loading.PdfTextSplitsIntoPages | preprocess/run_pipeline.py:29 | splitting the PDF document's text at newlines gives back the page texts, when no page contains a newline |
| Loading.LoadWith | preprocess/run_pipeline.py:20-50 | a loader that raises gives no documents; the docx and text loaders pass on what the library returned |
| Loading.LoadDocuments | preprocess/run_pipeline.py:51-66 | a missing path, an unreadable file and an unsupported suffix load nothing; a docx, doc or txt file gives the loader's documents, a PDF at most one; a directory gives its `.pdf`, `.docx`, `.doc` and `.txt` globs in that order |
| Loading.FileMode | preprocess/run_pipeline.py:53-59 | a single file is loaded with the loader of the lower-cased suffix of its file name, and an unsupported suffix loads nothing |
| Loading.FileInDirectory | preprocess/run_pipeline.py:53-59 | a file `dir/name` is dispatched on the suffix of `name` alone, whatever dots the directory holds |
| Loading.DirectoryGroupsInTableOrder | preprocess/run_pipeline.py:60-65 | a directory's documents are all `.pdf` matches, then `.docx`, then `.doc`, then `.txt`, each glob in listing order |
| Loading.GlobAppend | preprocess/run_pipeline.py:62-65 | a glob over two runs of entries is the concatenation of the globs over each run |
| Loading.UnreadableEntryIgnored | preprocess/run_pipeline.py:35-36 | an entry every loader fails on changes nothing in a directory's documents |
| Loading.UnsupportedEntryIgnored | preprocess/run_pipeline.py:61-62 | an entry matching none of the four patterns changes nothing in a directory's documents |
| Loading.ExtensionsExclusive | preprocess/run_pipeline.py:13-18 | no file name matches two of the glob patterns |
| Loading.SingleEntryDirectory | preprocess/run_pipeline.py:60-65 | a directory with one entry loads it at most once, with the loader for the pattern its name ends with |
| Loading.UpperCaseFileLoaded | preprocess/run_pipeline.py:54-57 | the single file `cv.PDF`, in any directory, is loaded as a PDF |
| Loading.DotFileNotLoaded | preprocess/run_pipeline.py:54-57 | the single file `.pdf` has no suffix and loads nothing |
| Loading.DotFileGlobbed | preprocess/run_pipeline.py:61-63 | a directory entry `.pdf` matches the `*.pdf` glob and is loaded as a PDF |
| Loading.UpperCaseEntrySkipped | preprocess/run_pipeline.py:61-62 | a directory entry `cv.PDF` matches no glob and loads nothing |
| Extraction.NewExtractor | preprocess/extractor.py:27-43 | construction succeeds exactly when a template is given and the client and prompt set-up raise nothing; a missing template fails with the `ValueError` message, a set-up failure with its own message, and a built extractor keeps the template, the model and the API key; the constructor at pre/extractor.py:11-12 makes the same template check |
| Extraction.Extract | preprocess/extractor.py:55-63 | a returned record is passed through unchanged; a raise or a None answer gives a record whose only key is `error`, holding a string |
| Extraction.ExtractReadsOnlyText | preprocess/extractor.py:56 | two documents with the same text extract to the same record, whatever their metadata |
| Extraction.ExtractErrorMessage | preprocess/extractor.py:57-63 | the exception message can be read back after the `Error processing document: ` prefix; a None answer gives exactly `Extraction returned None`, which does not carry that prefix |
| LegacyExtraction.SourceFile | pre/extractor.py:36-42 | the source-file name is always truthy |
| LegacyExtraction.SourceFileChain | pre/extractor.py:36-42 | the name is metadata `source` if truthy, else metadata `file_path` if truthy, else the `source` attribute if truthy, else `unknown` |
| LegacyExtraction.MetadataPath | pre/extractor.py:61-69 | the path comes from `source` whenever that key exists, whatever its value, else from `file_path`, and exists exactly when one of the two keys does |
| LegacyExtraction.BasenameOf | pre/extractor.py:67-74 | `basename` succeeds exactly on strings |
| LegacyExtraction.AttachPath | pre/extractor.py:61-74 | attaching a path succeeds exactly when it is a string, and then sets `source` to it and `file_name` to its base name |
| LegacyExtraction.LegacyExtract | pre/extractor.py:45-85 | a None answer gives `{}`; an exception gives the error record naming the source file |
| LegacyExtraction.ErrorRecordShape | pre/extractor.py:82-85 | an error record has the keys `error` and `source_file`, in that order; the message starts with the prefix and the file name and ends with the cause |
| LegacyExtraction.MetadataAttached | pre/extractor.py:60-71 | with string path metadata, the result has `source`, `file_name` and, if present in the metadata, `page` from it; every other key keeps the model's value |
| LegacyExtraction.MetadataWithoutPath | pre/extractor.py:60-72 | dict metadata with neither `source` nor `file_path` adds only `page`, when present, and the `source` attribute is not consulted |
| LegacyExtraction.SourceAttributeAttached | pre/extractor.py:72-74 | without dict metadata, a string `source` attribute gives `source` and `file_name`; other keys are untouched |
| LegacyExtraction.NothingToAttach | pre/extractor.py:53-77 | with neither metadata nor a `source` attribute the model's record is returned as is |
| LegacyExtraction.NonStringPathFails | pre/extractor.py:66-85 | a non-string path makes even a successful extraction end as an error record naming the source file |
| Pipeline.WriteJson | preprocess/run_pipeline.py:125-126 | writing stores the value when nothing fails; a failing `open` leaves the file untouched and a failing `json.dump` leaves it truncated, each with its message |
| Pipeline.ResultList | preprocess/run_pipeline.py:129-134 | the batch holds one record per document, in document order, each the extraction of that document |
| Pipeline.RunExtractionPipeline | preprocess/run_pipeline.py:91-143 | a constructor failure escapes with the file untouched; the call raises exactly then or when the empty-input write fails; with documents and no write failure the file holds what is returned; a failed write inside the `try` returns `{"error": message}` |
| Pipeline.MissingTemplateRaises | preprocess/run_pipeline.py:104-109 | a missing template raises the constructor's `ValueError`, whatever the input |
| Pipeline.SetupFailureRaises | preprocess/run_pipeline.py:104-109 | an exception from the client or prompt set-up escapes, and the output file is untouched |
| Pipeline.NoDocuments | preprocess/run_pipeline.py:114-117 | with no documents a directory gets `[]` written, anything else `{}`, and `{}` is returned; a failing write escapes, with the file untouched or truncated |
| Pipeline.FileInputFirstDocument | preprocess/run_pipeline.py:120-127 | a single file writes and returns the extraction of its first document only, and the file holds exactly what is returned |
| Pipeline.DirectoryInputOnePerDocument | preprocess/run_pipeline.py:128-138 | a directory writes and returns a list with one extraction per loaded document, in order, and the file holds exactly what is returned |
| Pipeline.WriteFailureReported | preprocess/run_pipeline.py:139-143 | once documents exist, a failing write is reported as `{"error": message}`; the file is untouched when `open` failed and truncated when `json.dump` did |
| Pipeline.UnreadableFileLeavesNoTrace | preprocess/run_pipeline.py:35-36 | a file the loader fails on leaves the pipeline's outcome as if the file were absent |
| Postprocessing.Postprocess | preprocess/postprocessing.py:5-11 | clean-up keeps exactly the entries whose value is not None, in order, and keeps keys unique |
| Postprocessing.PostprocessAppend | preprocess/postprocessing.py:10 | clean-up distributes over concatenation |
| Postprocessing.PostprocessNullFree | preprocess/postprocessing.py:10 | a record with no None value is left unchanged |
| Postprocessing.PostprocessIdempotent | preprocess/postprocessing.py:10 | cleaning twice is cleaning once |
| Postprocessing.PostprocessExample | preprocess/postprocessing.py:8-10 | `{"a": None, "b": [], "c": "x"}` cleans to `{"b": [], "c": "x"}` |
| Postprocessing.PostprocessKeys | preprocess/postprocessing.py:10 | on a dict, a key survives exactly when its value is not None, and `.get` sees the same values before and after |
| Postprocessing.Iterate | preprocess/postprocessing.py:39 | iterating fails exactly on None, bools and numbers; a list yields its items, a string its characters as one-character strings, and a dict its keys as strings |
| Postprocessing.FieldItemsSpec | preprocess/postprocessing.py:36-39 | a field's items exist exactly when every record's value iterates, and are then exactly the union of every record's items |
| Postprocessing.MergeListField | preprocess/postprocessing.py:34-44 | a list field merges exactly when every value iterates and every item is hashable, and then is the de-duplicated concatenation; otherwise it is that field's `TypeError` |
| Postprocessing.MergeListFields | preprocess/postprocessing.py:34-35 | the merged list fields come in table order, each a list equal to its field's merge |
| Postprocessing.FirstFilledSpec | preprocess/postprocessing.py:50-55 | the scalar search finds nothing exactly when every record leaves the field blank, and otherwise finds the first non-blank value |
| Postprocessing.MergeScalarFields | preprocess/postprocessing.py:47-55 | a scalar field is set exactly when some record fills it, to the first filled value, with no other keys and no duplicate keys |
| Postprocessing.Strip | preprocess/postprocessing.py:58-61 | `source`, `file_name` and `page` are gone and every other key keeps its value |
| Postprocessing.Merge | preprocess/postprocessing.py:22-25 | no records merge to `{}`, and a single record is returned unchanged |
| Postprocessing.AsRecords | preprocess/postprocessing.py:10 | the items are read as records exactly when each is a dict, one record per item, or fail at the first item that is not a dict |
| Postprocessing.LoadedRecords | preprocess/postprocessing.py:85-93 | an empty or unparseable file holds no results; iteration fails exactly on None, bools and numbers; a list gives one record per item exactly when every item is a dict; a non-empty dict or string fails at its first item, an empty one holds no results |
| Postprocessing.RunPostprocessing | preprocess/postprocessing.py:77-94 | an empty or unparseable file, an empty list, `{}` or `""` gives `{}`; None, a bool or a number raises `TypeError`; a non-empty dict raises at its first key; a list of one dict gives that dict cleaned |
| ListDedup.KeyOf | preprocess/postprocessing.py:41 | a dict's dedup key holds exactly its keys, each with its value (bools as 0 and 1); any other item is its own key, with bools as 0 and 1 |
| ListDedup.KeyOfIgnoresOrder | preprocess/postprocessing.py:41 | two dicts with the same entries in any order share a dedup key, as `tuple(sorted(item.items()))` does |
| ListDedup.Dedup | preprocess/postprocessing.py:39-44 | de-duplication only drops items |
| ListDedup.DedupKeySet | preprocess/postprocessing.py:41-44 | de-duplication keeps every dedup key of the input and adds none |
| ListDedup.DedupDistinct | preprocess/postprocessing.py:42-43 | no two kept items share a dedup key |
| ListDedup.DedupFirstOccurrences | preprocess/postprocessing.py:42-44 | every kept item is the first occurrence of its key |
| ListDedup.DedupOrder | preprocess/postprocessing.py:36-44 | kept items are in the order of their first occurrences |
| ListDedup.DedupIdempotent | preprocess/postprocessing.py:36-44 | de-duplicating again changes nothing |
| ListDedup.DedupOfDistinct | preprocess/postprocessing.py:36-44 | a list without repeated keys is kept whole |
| ListDedup.Normalize | preprocess/postprocessing.py:41-42 | a normalised dedup key never holds a bool (`True` and `False` compare as 1 and 0), and a non-bool is unchanged |
| ListDedup.DedupLoop | preprocess/postprocessing.py:39-44 | the loop with its `seen` set computes the de-duplication |
| MergeLaws.MergeShape | preprocess/postprocessing.py:27-64 | a merge of two or more records starts with the six list fields, each a list, has only list and scalar field keys, none of `source`, `file_name` or `page`, and unique keys |
| MergeLaws.MergeListFieldDedup | preprocess/postprocessing.py:34-44 | each merged list field is the de-duplicated concatenation of the records' items: distinct keys, every key kept, only input items |
| MergeLaws.MergeScalarFirstFilled | preprocess/postprocessing.py:47-55 | a scalar field is present exactly when some record fills it, with the value of the first record that does |
| MergeLaws.MergeScalarValue | preprocess/postprocessing.py:50-55 | a merged scalar field's `.get` is the first filled value, or None |
| MergeLaws.MergeFails | preprocess/postprocessing.py:34-44 | a merge fails exactly when some list field fails, and reports the first failing field in table order |
| MergeLaws.ListFieldFails | preprocess/postprocessing.py:37-42 | a list field fails exactly when a record holds a truthy number or `True` there, or an item is unhashable |
| MergeLaws.MergeWithoutListFields | preprocess/postprocessing.py:34-44 | records without list fields always merge |
| MergeLaws.SkillsExample | preprocess/postprocessing.py:34-44 | skills `[Python, SQL]` and `[SQL, Go]` merge to `[Python, SQL, Go]` |
| MergeLaws.NameOfMerge | preprocess/postprocessing.py:50-55 | of two records, one with a non-empty name and one with None, the merge takes the name in either order |
| MergeLaws.NameExample | preprocess/postprocessing.py:50-55 | `merge([A, B])` and `merge([B, A])` both take `A`'s name when `B`'s is None |
| MergeLaws.MergeNullFree | preprocess/postprocessing.py:27-64 | a merge of two or more records holds no None value |
| MergeLaws.RunPostprocessingNullFree | preprocess/postprocessing.py:85-94 | whatever post-processing saves holds no None value |
| CvSchema.EmptyListIfNone | preprocess/schemas/cv_schema.py:68-73 | the validator turns None into `[]` and passes every other value through unchanged |
| CvSchema.ValidatorFieldsAreMergeListFields | preprocess/schemas/cv_schema.py:68 | the validator's fields are exactly the fields `merge_documents` treats as lists |
| CvSchema.NoneListValidatesAsEmpty | preprocess/schemas/cv_schema.py:61-73 | a None list field validates exactly as an empty list |
| CvSchema.Validate | preprocess/schemas/cv_schema.py:50-73 | a valid record's `summary` and `name` are the record's strings; a missing or non-string `summary` fails on `summary`, and otherwise a missing or non-string `name` fails on `name` |
| CvSchema.RequiredTopLevel | preprocess/schemas/cv_schema.py:52-57 | a valid record has string `summary` and `name`, and the schema keeps them |
| CvSchema.OnlyRequiredFields | preprocess/schemas/cv_schema.py:50-66 | `summary` and `name` alone validate, with every optional field None and every list empty |
| CvSchema.NestedRequiredFields | preprocess/schemas/cv_schema.py:21-47 | a valid education has an institution string and a valid experience has a description string |
| CvSchema.EducationNeedsOnlyInstitution | preprocess/schemas/cv_schema.py:21-26 | an institution alone makes a valid education |
| CvSchema.ExperienceNeedsOnlyDescription | preprocess/schemas/cv_schema.py:38-47 | a description alone makes a valid experience |
| CvSchema.EmptyNestedRecords | preprocess/schemas/cv_schema.py:15-36 | `{}` is a valid location, language and profile, with every field None |
| CvSchema.ParseItems | preprocess/schemas/cv_schema.py:61-66 | a list validates exactly when every item does, and then holds each item's validated value, in order |
| CvSchema.LocationRoundTrip | preprocess/schemas/cv_schema.py:15-19 | a dumped location validates back to itself |
| CvSchema.EducationRoundTrip | preprocess/schemas/cv_schema.py:21-26 | a dumped education validates back to itself |
| CvSchema.LanguageRoundTrip | preprocess/schemas/cv_schema.py:28-31 | a dumped language validates back to itself |
| CvSchema.ProfileRoundTrip | preprocess/schemas/cv_schema.py:33-36 | a dumped profile validates back to itself |
| CvSchema.ExperienceRoundTrip | preprocess/schemas/cv_schema.py:38-47 | a dumped experience validates back to itself |
| CvSchema.DumpValidates | preprocess/schemas/cv_schema.py:50-73 | a dumped CV record validates back to itself |
| CvSchema.DumpHasListFields | preprocess/schemas/cv_schema.py:61-66 | a dumped CV record holds every list field as a list, never None |
| AppHelpers.ValidateApiKey | app/functions.py:33-51 | a key is accepted exactly when it is given, starts with `sk-` and has at least 20 characters |
| AppHelpers.ApiKeyRejections | app/functions.py:41-51 | no key, an empty key, a key without `sk-` and a short key are rejected, and a 20-character `sk-` key is accepted |
| AppHelpers.ChildKey | app/functions.py:207 | at the top level (an empty parent) the key is `k` itself; under a non-empty parent it is the parent, the separator, then exactly `k` |
| AppHelpers.FlattenObj | app/functions.py:201-220 | flattening gives unique keys, no dict values, and keys all under the parent prefix |
| AppHelpers.ListItems | app/functions.py:211-217 | an expanded list's keys all start with `key + sep + str(j) + sep` for the index `j` of one of its dict elements |
| AppHelpers.FlattenHasNoNestedObjects | app/functions.py:209-220 | no value of a flattened dict is a dict |
| AppHelpers.FlattenLaterWins | app/functions.py:220 | when two collected pairs share a key, the later value wins |
| AppHelpers.VerbatimEntry | app/functions.py:218-219 | a value that is neither a dict nor a list starting with a dict is kept under its joined key |
| AppHelpers.NestedEntry | app/functions.py:209-210 | a nested dict is flattened under its joined key |
| AppHelpers.ExpandedListKeyAbsent | app/functions.py:211-217 | a list starting with a dict leaves no entry under its own key |
| AppHelpers.ExpandedListExample | app/functions.py:211-217 | a list of dict, string, dict is flattened to keys `k_0_t` and `k_2_t`: the string is dropped and the index is kept |
| Dicts.Set | preprocess/run_pipeline.py:32 | assignment stores the value, leaves every other key alone, keeps an existing key's position and keeps keys unique |
| Dicts.Remove | preprocess/postprocessing.py:58-61 | `pop` removes the key and leaves every other key alone |
| Dicts.FromPairs | app/functions.py:220 | `dict(items)` has unique keys and exactly the keys of the pairs |
| Dicts.FromPairsLastWins | app/functions.py:220 | `dict(items)` maps each key to its last value among the pairs |
| Text.Basename | pre/extractor.py:67 | a base name has no slash, ends the path, and follows a slash when shorter than the path |
| Text.Suffix | preprocess/run_pipeline.py:54 | a suffix is non-empty exactly when the name has a dot, neither its first nor its last character, with no dot after it; it is then a dot and at least one more character, with no further dot, ending the name and shorter than it |
| Text.SplitJoin | preprocess/run_pipeline.py:29 | splitting a newline-joined text gives back the parts when no part contains a newline |
| Text.NatToStringRoundTrip | app/functions.py:216 | the decimal index in a flattened key reads back as the index |

## Left out

- The language model and the LangChain chain are not modelled. `chain.ainvoke` becomes a given function from a document's text to its outcome. So are the prompt and the `temperature=0.1` setting.
- PDF, DOCX and text parsing is not modelled. What a loader returns for a file, or that it raises, is an input (`Loading.Contents`).
- Directory listing is an input. The order of glob results is whatever the file system gives.
- Paths are joined as `dir + "/" + name`; `Path` normalisation is not modelled.
- File I/O and `json.dump` are not modelled. The written JSON is modelled as the value written. Whether opening the output file or dumping into it fails is an input (`Pipeline.WriteFault`). What a failed `json.dump` leaves in the file is not modelled beyond `Truncated`. `run_postprocessing`'s `json.load` becomes a `RawFile` input, and `save_postprocessed_results` is the returned record.
- `run_postprocessing`: exceptions of `json.load` other than `JSONDecodeError`, such as `UnicodeDecodeError`, and a missing file for `os.path.getsize`, are not modelled; the file's content is an input.
- `run_sync_or_async` (preprocess/run_pipeline.py:70-89) is left out. It is an event-loop bridge with no logic of its own, and the model has no concurrency. `extract_from_document` is treated as a plain call.
- Logging is left out, as a side effect without a result: `print`, and the `st.warning` calls of `validate_api_key`.
- Floating-point numbers are not modelled: `Json.Value` numbers are integers. `Json.Repr` does not model the quoting and escaping of strings nested inside `repr`.
- Extraction.NewExtractor: whether `ChatOpenAI` or `ChatPromptTemplate` raises (for instance with no API key anywhere, or with unbalanced braces in the template) is an input, `setupError`; it is not derived from the key or the template.
- `Extraction.Extract`: a chain result counts as falsy only when it is None, since pydantic models are always truthy.
- LegacyExtraction: metadata that is not a dict is modelled as absent, which is what `isinstance(..., dict)` decides. `bytes` paths are not modelled.
- `get_schema` and `get_prompt` (preprocess/schemas/cv_schema.py:75 onwards) return a class and a prompt string and hold no logic.
- CvSchema: validation covers pydantic's lax mode only for the field types of this schema. It reports the first failing field, where pydantic collects every error.
- The other schemas (invoice, bank statement, utility bill) are not part of this model. Neither are pre/schemas/cv_schema.py, extract.py or the Streamlit UI of app/app.py.
- AppHelpers.ValidateApiKey: its call sites pass no argument (app/app.py:169 and 204, app/functions.py:76), which would raise a `TypeError`. Only the function itself is modelled.
- AppHelpers: `flatten_dict` is modelled for `str` keys only. Non-string keys cannot occur in a JSON-like value.
