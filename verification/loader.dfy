/** Document loading (`Processor` in preprocess/run_pipeline.py): which files
    of the input path are read, with which loader, and in what order. The
    third-party loaders themselves are not modelled: what each would return
    for a file (or that it would raise) is part of the input. */
module Loading {
  import opened Results
  import opened Dicts
  import opened Json
  import opened Text

  /** A langchain `Document`: text plus a metadata dictionary. */
  datatype Document = Document(pageContent: string, metadata: Record)

  datatype Loader = Pdf | Docx | PlainText

  /** What the third-party loader makes of one file: it raises, or it
      returns documents (one per page for a PDF). */
  datatype Contents = Unreadable | Loaded(docs: seq<Document>)

  /** A directory entry as the glob lists it; a sub-directory is an entry
      every loader fails on. */
  datatype Entry = Entry(name: string, contents: Contents)

  /** The input path: a regular file, a directory (its entries in listing
      order), or a path that does not exist. */
  datatype InputPath =
    | FilePath(path: string, contents: Contents)
    | Directory(path: string, entries: seq<Entry>)
    | Missing(path: string)

  /** The extension table, in its insertion order. */
  const SupportedExtensions: Dict<Loader> :=
    [(".pdf", Pdf), (".docx", Docx), (".doc", Docx), (".txt", PlainText)]

  /** `supported_extensions.get(ext)`. */
  function LoaderFor(ext: string): Option<Loader> {
    Lookup(SupportedExtensions, ext)
  }

  /** Which loader each extension uses, written out case by case. */
  function ExtensionLoader(ext: string): Option<Loader> {
    if ext == ".pdf" then Some(Pdf)
    else if ext == ".docx" || ext == ".doc" then Some(Docx)
    else if ext == ".txt" then Some(PlainText)
    else None
  }

  /** The table supports exactly four extensions, and `.doc` shares the
      docx loader. */
  lemma LoaderTable(ext: string)
    ensures LoaderFor(ext) == ExtensionLoader(ext)
    ensures LoaderFor(ext).Some? <==> ext in {".pdf", ".docx", ".doc", ".txt"}
  {
    var t := SupportedExtensions;
    if ext == ".pdf" {
      LookupFirst(t, 0, ext);
    } else if ext == ".docx" {
      LookupFirst(t, 1, ext);
    } else if ext == ".doc" {
      LookupFirst(t, 2, ext);
    } else if ext == ".txt" {
      LookupFirst(t, 3, ext);
    } else {
      assert !Has(t, ext);
    }
  }

  function PageTexts(pages: seq<Document>): (r: seq<string>)
    ensures |r| == |pages|
  {
    seq(|pages|, i requires 0 <= i < |pages| => pages[i].pageContent)
  }

  /** `_load_pdf`: all pages become a single document; no pages, or a
      loader failure, give no document. */
  function LoadPdf(path: string, c: Contents): (r: seq<Document>)
    ensures |r| <= 1
    ensures r == [] <==> c.Unreadable? || c.docs == []
  {
    match c
    case Unreadable => []
    case Loaded(pages) =>
      if |pages| == 0 then []
      else [Document(Join("\n", PageTexts(pages)), Set(pages[0].metadata, "source", Str(path)))]
  }

  /** The document's metadata is the first page's, with `source` set to the
      path. */
  lemma PdfMetadata(path: string, pages: seq<Document>)
    requires pages != []
    ensures var md := LoadPdf(path, Loaded(pages))[0].metadata;
      && Lookup(md, "source") == Some(Str(path))
      && (forall k :: k != "source" ==> Lookup(md, k) == Lookup(pages[0].metadata, k))
      && (Has(pages[0].metadata, "source") ==> KeysOf(md) == KeysOf(pages[0].metadata))
  {
  }

  /** The page texts can be recovered from the combined text when no page
      holds a line break of its own. */
  lemma PdfTextSplitsIntoPages(path: string, pages: seq<Document>)
    requires pages != []
    requires forall i :: 0 <= i < |pages| ==> '\n' !in pages[i].pageContent
    ensures Split(LoadPdf(path, Loaded(pages))[0].pageContent, '\n') == PageTexts(pages)
  {
    SplitJoin(PageTexts(pages), '\n');
  }

  /** A one-page PDF keeps its text unchanged. */
  lemma PdfSinglePage(path: string, page: Document)
    ensures LoadPdf(path, Loaded([page])) ==
      [Document(page.pageContent, Set(page.metadata, "source", Str(path)))]
  {
  }

  /** The loader methods: docx and text files keep the documents the
      loader returns; every loader failure is swallowed. */
  function LoadWith(l: Loader, path: string, c: Contents): (r: seq<Document>)
    ensures c.Unreadable? ==> r == []
    ensures l != Pdf && c.Loaded? ==> r == c.docs
  {
    match l
    case Pdf => LoadPdf(path, c)
    case _ => if c.Unreadable? then [] else c.docs
  }

  /** `input_dir.glob("*" + ext)` followed by the loader on each match, in
      listing order. The match is case-sensitive. */
  function Glob(dir: string, entries: seq<Entry>, ext: string, l: Loader): seq<Document> {
    if |entries| == 0 then []
    else EntryDocs(dir, entries[0], ext, l) + Glob(dir, entries[1..], ext, l)
  }

  /** What one glob pattern loads from one entry. */
  function EntryDocs(dir: string, e: Entry, ext: string, l: Loader): seq<Document> {
    if EndsWith(e.name, ext) then LoadWith(l, dir + "/" + e.name, e.contents) else []
  }

  /** The directory branch of `load_documents`: one glob per table entry, in
      table order. */
  function LoadDirectory(dir: string, entries: seq<Entry>, table: Dict<Loader>, i: nat): seq<Document>
    decreases |table| - i
  {
    if i >= |table| then []
    else Glob(dir, entries, table[i].0, table[i].1) + LoadDirectory(dir, entries, table, i + 1)
  }

  /** `Processor(input).load_documents()`. A single file is dispatched on the
      lower-cased suffix of its name (`Path.suffix` looks at the last path
      component only); a missing path globs nothing. */
  function LoadDocuments(input: InputPath): (r: seq<Document>)
    ensures input.Missing? ==> r == []
    ensures input.FilePath? && input.contents.Unreadable? ==> r == []
    ensures input.FilePath? && LowerAscii(Suffix(Basename(input.path))) !in {".pdf", ".docx", ".doc", ".txt"} ==> r == []
    ensures (input.FilePath? && input.contents.Loaded? && LowerAscii(Suffix(Basename(input.path))) in {".docx", ".doc", ".txt"})
      ==> r == input.contents.docs
    ensures input.FilePath? && LowerAscii(Suffix(Basename(input.path))) == ".pdf" ==> |r| <= 1
    ensures input.Directory? ==>
      r == Glob(input.path, input.entries, ".pdf", Pdf) + Glob(input.path, input.entries, ".docx", Docx)
        + Glob(input.path, input.entries, ".doc", Docx) + Glob(input.path, input.entries, ".txt", PlainText)
  {
    LoaderTable(LowerAscii(Suffix(Basename(input.path))));
    match input
    case FilePath(path, c) =>
      (match LoaderFor(LowerAscii(Suffix(Basename(path))))
       case None => []
       case Some(l) => LoadWith(l, path, c))
    case Directory(dir, entries) =>
      LoadDirectoryFour(dir, entries, SupportedExtensions);
      LoadDirectory(dir, entries, SupportedExtensions, 0)
    case Missing(_) => []
  }

  /** Single-file input: the loader is the one for the lower-cased suffix of
      the file name, and an unsupported suffix loads nothing. */
  lemma FileMode(path: string, c: Contents)
    ensures LoadDocuments(FilePath(path, c)) ==
      match ExtensionLoader(LowerAscii(Suffix(Basename(path))))
      case None => []
      case Some(l) => LoadWith(l, path, c)
  {
    LoaderTable(LowerAscii(Suffix(Basename(path))));
  }

  /** Directory input: PDFs first, then `.docx`, `.doc` and `.txt` files. */
  lemma DirectoryGroupsInTableOrder(dir: string, entries: seq<Entry>)
    ensures LoadDocuments(Directory(dir, entries)) ==
      Glob(dir, entries, ".pdf", Pdf) + Glob(dir, entries, ".docx", Docx)
        + Glob(dir, entries, ".doc", Docx) + Glob(dir, entries, ".txt", PlainText)
  {
    LoadDirectoryFour(dir, entries, SupportedExtensions);
  }

  lemma LoadDirectoryFour(dir: string, entries: seq<Entry>, t: Dict<Loader>)
    requires |t| == 4
    ensures LoadDirectory(dir, entries, t, 0) ==
      Glob(dir, entries, t[0].0, t[0].1) + Glob(dir, entries, t[1].0, t[1].1)
        + Glob(dir, entries, t[2].0, t[2].1) + Glob(dir, entries, t[3].0, t[3].1)
  {
    var g0, g1 := Glob(dir, entries, t[0].0, t[0].1), Glob(dir, entries, t[1].0, t[1].1);
    var g2, g3 := Glob(dir, entries, t[2].0, t[2].1), Glob(dir, entries, t[3].0, t[3].1);
    assert LoadDirectory(dir, entries, t, 4) == [];
    assert LoadDirectory(dir, entries, t, 3) == g3;
    assert LoadDirectory(dir, entries, t, 2) == g2 + g3;
    assert LoadDirectory(dir, entries, t, 1) == g1 + (g2 + g3);
  }

  /** Within one glob the documents follow the listing order. */
  lemma {:induction false} GlobAppend(dir: string, a: seq<Entry>, b: seq<Entry>, ext: string, l: Loader)
    ensures Glob(dir, a + b, ext, l) == Glob(dir, a, ext, l) + Glob(dir, b, ext, l)
  {
    if |a| == 0 {
      assert a + b == b;
    } else {
      assert (a + b)[0] == a[0];
      assert (a + b)[1..] == a[1..] + b;
      GlobAppend(dir, a[1..], b, ext, l);
    }
  }

  lemma GlobSingle(dir: string, e: Entry, ext: string, l: Loader)
    ensures Glob(dir, [e], ext, l) == EntryDocs(dir, e, ext, l)
  {
    assert [e][1..] == [];
  }

  /** An entry no glob loads anything from (no matching extension, or a
      failing loader) can be removed without changing the result. */
  lemma {:induction false} SilentEntryIgnored(dir: string, a: seq<Entry>, e: Entry, b: seq<Entry>,
    table: Dict<Loader>, i: nat)
    requires forall j :: i <= j < |table| ==> EntryDocs(dir, e, table[j].0, table[j].1) == []
    ensures LoadDirectory(dir, a + [e] + b, table, i) == LoadDirectory(dir, a + b, table, i)
    decreases |table| - i
  {
    if i < |table| {
      GlobWithout(dir, a, e, b, table[i].0, table[i].1);
      SilentEntryIgnored(dir, a, e, b, table, i + 1);
    }
  }

  lemma GlobWithout(dir: string, a: seq<Entry>, e: Entry, b: seq<Entry>, ext: string, l: Loader)
    requires EntryDocs(dir, e, ext, l) == []
    ensures Glob(dir, a + [e] + b, ext, l) == Glob(dir, a + b, ext, l)
  {
    GlobAppend(dir, a + [e], b, ext, l);
    GlobAppend(dir, a, [e], ext, l);
    GlobAppend(dir, a, b, ext, l);
    GlobSingle(dir, e, ext, l);
  }

  /** A file the loader fails on drops out of the batch and nothing else
      changes. */
  lemma UnreadableEntryIgnored(dir: string, a: seq<Entry>, name: string, b: seq<Entry>)
    ensures LoadDocuments(Directory(dir, a + [Entry(name, Unreadable)] + b)) ==
      LoadDocuments(Directory(dir, a + b))
  {
    SilentEntryIgnored(dir, a, Entry(name, Unreadable), b, SupportedExtensions, 0);
  }

  /** A file with none of the four extensions is not loaded. */
  lemma UnsupportedEntryIgnored(dir: string, a: seq<Entry>, e: Entry, b: seq<Entry>)
    requires !EndsWith(e.name, ".pdf") && !EndsWith(e.name, ".docx")
    requires !EndsWith(e.name, ".doc") && !EndsWith(e.name, ".txt")
    ensures LoadDocuments(Directory(dir, a + [e] + b)) == LoadDocuments(Directory(dir, a + b))
  {
    SilentEntryIgnored(dir, a, e, b, SupportedExtensions, 0);
  }

  lemma EndsWithBoth(s: string, x: string, y: string)
    requires EndsWith(s, x) && EndsWith(s, y) && |x| <= |y|
    ensures EndsWith(y, x)
  {
    assert y[|y| - |x|..] == s[|s| - |x|..];
  }

  /** No name ends with two of the four extensions. */
  lemma ExtensionsExclusive(n: string)
    ensures EndsWith(n, ".pdf") ==>
      !EndsWith(n, ".docx") && !EndsWith(n, ".doc") && !EndsWith(n, ".txt")
    ensures EndsWith(n, ".docx") ==> !EndsWith(n, ".doc") && !EndsWith(n, ".txt")
    ensures EndsWith(n, ".doc") ==> !EndsWith(n, ".txt")
  {
    if EndsWith(n, ".pdf") {
      if EndsWith(n, ".docx") { EndsWithBoth(n, ".pdf", ".docx"); }
      if EndsWith(n, ".doc") { EndsWithBoth(n, ".pdf", ".doc"); }
      if EndsWith(n, ".txt") { EndsWithBoth(n, ".pdf", ".txt"); }
    }
    if EndsWith(n, ".docx") {
      if EndsWith(n, ".doc") { EndsWithBoth(n, ".doc", ".docx"); }
      if EndsWith(n, ".txt") { EndsWithBoth(n, ".txt", ".docx"); }
    }
    if EndsWith(n, ".doc") {
      if EndsWith(n, ".txt") { EndsWithBoth(n, ".doc", ".txt"); }
    }
  }

  /** The case-sensitive loader choice of the directory branch. */
  function MatchedLoader(name: string): Option<Loader> {
    if EndsWith(name, ".pdf") then Some(Pdf)
    else if EndsWith(name, ".docx") || EndsWith(name, ".doc") then Some(Docx)
    else if EndsWith(name, ".txt") then Some(PlainText)
    else None
  }

  /** No name matches two of the glob patterns, so every file is loaded at
      most once, with the loader for its extension. */
  lemma SingleEntryDirectory(dir: string, e: Entry)
    ensures LoadDocuments(Directory(dir, [e])) ==
      match MatchedLoader(e.name)
      case None => []
      case Some(l) => LoadWith(l, dir + "/" + e.name, e.contents)
  {
    SingleEntrySum(dir, e);
    var n, path, c := e.name, dir + "/" + e.name, e.contents;
    ExtensionsExclusive(n);
    var lp, lx, lt := LoadWith(Pdf, path, c), LoadWith(Docx, path, c), LoadWith(PlainText, path, c);
    PickMatch(EndsWith(n, ".pdf"), EndsWith(n, ".docx"), EndsWith(n, ".doc"), EndsWith(n, ".txt"), lp, lx, lt);
  }

  /** Of four mutually exclusive matches at most one contributes. */
  lemma PickMatch(bp: bool, bx: bool, bd: bool, bt: bool, lp: seq<Document>, lx: seq<Document>, lt: seq<Document>)
    requires bp ==> !bx && !bd && !bt
    requires bx ==> !bd && !bt
    requires bd ==> !bt
    ensures (if bp then lp else []) + (if bx then lx else []) + (if bd then lx else []) + (if bt then lt else [])
      == if bp then lp else if bx || bd then lx else if bt then lt else []
  {
  }

  lemma SingleEntrySum(dir: string, e: Entry)
    ensures LoadDocuments(Directory(dir, [e])) ==
      EntryDocs(dir, e, ".pdf", Pdf) + EntryDocs(dir, e, ".docx", Docx)
        + EntryDocs(dir, e, ".doc", Docx) + EntryDocs(dir, e, ".txt", PlainText)
  {
    DirectoryGroupsInTableOrder(dir, [e]);
    GlobSingle(dir, e, ".pdf", Pdf);
    GlobSingle(dir, e, ".docx", Docx);
    GlobSingle(dir, e, ".doc", Docx);
    GlobSingle(dir, e, ".txt", PlainText);
  }

  /** A file `name` in any directory is dispatched on the suffix of `name`. */
  lemma FileInDirectory(dir: string, name: string, c: Contents)
    requires '/' !in name
    ensures LoadDocuments(FilePath(dir + "/" + name, c)) ==
      match ExtensionLoader(LowerAscii(Suffix(name)))
      case None => []
      case Some(l) => LoadWith(l, dir + "/" + name, c)
  {
    BasenameOfJoin(dir, name);
    FileMode(dir + "/" + name, c);
  }

  lemma UpperCaseSuffix()
    ensures LowerAscii(Suffix("cv.PDF")) == ".pdf"
  {
    var name := "cv.PDF";
    assert RFind("cv.", '.') == 2;
    assert RFind("cv.P", '.') == 2 by { assert "cv.P"[..3] == "cv."; }
    assert RFind("cv.PD", '.') == 2 by { assert "cv.PD"[..4] == "cv.P"; }
    assert RFind(name, '.') == 2 by { assert name[..5] == "cv.PD"; }
    assert Suffix(name) == ".PDF";
  }

  /** The suffix is lower-cased for a single file but the globs are
      case-sensitive: `cv.PDF` is read on its own and skipped inside a
      directory. */
  lemma UpperCaseFileLoaded(dir: string, c: Contents)
    ensures LoadDocuments(FilePath(dir + "/" + "cv.PDF", c)) == LoadPdf(dir + "/" + "cv.PDF", c)
  {
    UpperCaseSuffix();
    FileInDirectory(dir, "cv.PDF", c);
  }

  lemma DotFileSuffix()
    ensures Suffix(".pdf") == ""
  {
    assert RFind(".", '.') == 0;
    assert RFind(".p", '.') == 0 by { assert ".p"[..1] == "."; }
    assert RFind(".pd", '.') == 0 by { assert ".pd"[..2] == ".p"; }
    assert RFind(".pdf", '.') == 0 by { assert ".pdf"[..3] == ".pd"; }
  }

  /** A file named `.pdf` has no suffix (the dot starts its name), so on its
      own it loads nothing, whatever directory it is in. */
  lemma DotFileNotLoaded(dir: string, c: Contents)
    ensures LoadDocuments(FilePath(dir + "/" + ".pdf", c)) == []
  {
    DotFileSuffix();
    FileInDirectory(dir, ".pdf", c);
  }

  /** Inside a directory the same name does match `*.pdf`. */
  lemma DotFileGlobbed(dir: string, c: Contents)
    ensures LoadDocuments(Directory(dir, [Entry(".pdf", c)])) == LoadPdf(dir + "/" + ".pdf", c)
  {
    SingleEntryDirectory(dir, Entry(".pdf", c));
  }

  lemma UpperCaseEntrySkipped(dir: string, c: Contents)
    ensures LoadDocuments(Directory(dir, [Entry("cv.PDF", c)])) == []
  {
    SingleEntryDirectory(dir, Entry("cv.PDF", c));
  }
}
