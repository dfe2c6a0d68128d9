/**
 * The pipeline stages of src/service/document/pipeliner.rs around the
 * chunker: the `.doc` conversion rule, the reader choice, the strategy
 * chain with its combined error text, the document-type tagging and the
 * per-article point building. Remote services are parameters: their reply
 * to the request the stage builds.
 */
module Pipeliner {
  import opened Wrappers
  import opened Json
  import opened Strings
  import opened ErrChain
  import opened Generally
  import opened Business
  import opened Qdrant
  import opened Chunker

  /** A file path, as text with `/` separators. */
  type Path = string

  /** The last component of a path. */
  function FileName(path: Path): (name: string)
    ensures '/' !in name && |name| <= |path| && name == path[|path| - |name|..]
  {
    LastPiece(path, '/')
  }

  /** `Path::file_stem`: the name up to its last '.', unless that dot is the first character or there is none. */
  function FileStem(name: string): (stem: string)
    ensures |stem| <= |name| && stem == name[..|stem|]
    ensures |name| >= 1 ==> |stem| >= 1
  {
    var suffix := LastPiece(name, '.');
    if |suffix| + 1 >= |name| then name else name[..|name| - |suffix| - 1]
  }

  /** `PathBuf::with_extension`: the final component's extension replaced by `ext`; a path without a file name is unchanged. */
  function WithExtension(path: Path, ext: string): (r: Path)
    ensures FileName(path) == "" || FileName(path) == ".." ==> r == path
    ensures FileName(path) != "" && FileName(path) != ".." ==>
      r == path[..|path| - |FileName(path)|] + FileStem(FileName(path)) + "." + ext
  {
    var name := FileName(path);
    if name == "" || name == ".." then path
    else path[..|path| - |name|] + FileStem(name) + "." + ext
  }

  /** The directory part is kept and the new name ends in "." + `ext`. */
  lemma WithExtensionKeepsDirectory(path: Path, ext: string)
    requires FileName(path) != "" && FileName(path) != ".."
    ensures var r := WithExtension(path, ext);
      |r| > |ext| && r[|r| - |ext| - 1..] == "." + ext && r[..|path| - |FileName(path)|] == path[..|path| - |FileName(path)|]
  {
    var dir := path[..|path| - |FileName(path)|];
    var stem := FileStem(FileName(path));
    WithExtensionJoin(path, ext);
    PartsOfJoined(dir, stem, ext);
  }

  lemma PartsOfJoined(dir: string, stem: string, ext: string)
    ensures var r := dir + (stem + "." + ext);
      |r| > |ext| && r[..|dir|] == dir && r[|r| - |ext| - 1..] == "." + ext
  {
  }

  /** A name that `with_extension` produced: its stem, a dot, and the extension. */
  lemma {:induction false} NewNameSplits(stem: string, ext: string)
    requires stem != "" && '/' !in stem && '.' !in ext && '/' !in ext
    ensures '/' !in stem + "." + ext
    ensures FileStem(stem + "." + ext) == stem
  {
    var newName := stem + "." + ext;
    assert newName[|newName| - |ext|..] == ext;
    assert newName[|newName| - |ext| - 1] == '.';
    LastPieceUnique(newName, '.', ext);
    assert newName[..|newName| - |ext| - 1] == stem;
  }

  /** The file name of a directory part followed by a '/'-free name is that name. */
  lemma {:induction false} FileNameOfJoined(dir: Path, name: string)
    requires '/' !in name && (|dir| == 0 || dir[|dir| - 1] == '/')
    ensures FileName(dir + name) == name
  {
    var r := dir + name;
    assert r[|r| - |name|..] == name;
    if |name| < |r| {
      assert r[|r| - |name| - 1] == dir[|dir| - 1];
    }
    LastPieceUnique(r, '/', name);
  }

  /**
   * The converted path's file name is the old stem, a dot and `ext`, and its
   * stem is the old stem again: converting twice gives the same name.
   */
  lemma ConvertedName(path: Path, ext: string)
    requires FileName(path) != "" && FileName(path) != ".." && '/' !in ext && '.' !in ext
    ensures FileName(WithExtension(path, ext)) == FileStem(FileName(path)) + "." + ext
    ensures FileStem(FileName(WithExtension(path, ext))) == FileStem(FileName(path))
  {
    var name := FileName(path);
    var dir := path[..|path| - |name|];
    var stem := FileStem(name);
    StemHasNoSlash(name);
    NewNameSplits(stem, ext);
    DirEndsWithSlash(path);
    var newName := stem + "." + ext;
    WithExtensionJoin(path, ext);
    FileNameOfJoined(dir, newName);
  }

  /** `with_extension` as the directory part followed by the new name. */
  lemma WithExtensionJoin(path: Path, ext: string)
    requires FileName(path) != "" && FileName(path) != ".."
    ensures WithExtension(path, ext) == path[..|path| - |FileName(path)|] + (FileStem(FileName(path)) + "." + ext)
  {
    Assoc4(path[..|path| - |FileName(path)|], FileStem(FileName(path)), ".", ext);
  }

  lemma Assoc4(a: string, b: string, c: string, d: string)
    ensures a + b + c + d == a + (b + c + d)
  {
  }

  lemma StemHasNoSlash(name: string)
    requires '/' !in name
    ensures '/' !in FileStem(name)
  {
    var stem := FileStem(name);
    forall k | 0 <= k < |stem| ensures stem[k] != '/' {
      assert stem[k] == name[k];
    }
  }

  lemma DirEndsWithSlash(path: Path)
    ensures var dir := path[..|path| - |FileName(path)|]; |dir| == 0 || dir[|dir| - 1] == '/'
  {
  }

  /** The remote endpoints the pipeline calls. */
  datatype Proxy = WordToPdf | XlsxReader | PdfxReader | DocxReader | Splitter | Embedder

  /** A request to a remote endpoint: where, and the JSON body. */
  datatype Request = Request(proxy: Proxy, body: Json)

  function PathBody(filepath: Path): Json {
    Object(map["filepath" := String(filepath)])
  }

  /** The conversion request `document_convertor` sends, if any. */
  function ConvertRequest(filepath: Path, extension: Extension): (q: Option<Request>)
    ensures q.Some? <==> extension == Doc
    ensures q.Some? ==> q.value == Request(WordToPdf, PathBody(filepath))
  {
    if extension == Doc then Some(Request(WordToPdf, PathBody(filepath))) else None
  }

  /**
   * `document_convertor`: `reply` is the converter's answer to the request,
   * consulted only for `.doc` files.
   */
  function DocumentConvertor(filepath: Path, extension: Extension, reply: Result<(), Error>): (r: Result<Path, Error>)
    ensures extension != Doc ==> r == Ok(filepath)
    ensures extension == Doc && reply.Err? ==> r == Err(reply.error)
    ensures extension == Doc && reply.Ok? ==> r == Ok(WithExtension(filepath, "pdf"))
  {
    if extension != Doc then Ok(filepath)
    else
      var _ :- reply;
      Ok(WithExtension(filepath, "pdf"))
  }

  /** Only `.doc` files go through the converter: for the others nothing is sent and its answer does not matter. */
  lemma OnlyDocIsConverted(filepath: Path, extension: Extension, a: Result<(), Error>, b: Result<(), Error>)
    requires extension != Doc
    ensures ConvertRequest(filepath, extension) == None
    ensures DocumentConvertor(filepath, extension, a) == DocumentConvertor(filepath, extension, b) == Ok(filepath)
  {
  }

  /** The request `document_extractor` sends, chosen by the file's kind. */
  function ExtractorRequest(filepath: Path, extension: Extension): (q: Request)
    ensures (extension == Xls || extension == Xlsx) <==> q.proxy == XlsxReader
    ensures (extension == Doc || extension == Pdf) <==> q.proxy == PdfxReader
    ensures extension == Docx <==> q.proxy == DocxReader
    ensures q.proxy == XlsxReader ==>
      q.body == Object(map["filepath" := String(filepath), "readmode" := String("table"), "sheet" := String("")])
    ensures q.proxy != XlsxReader ==> q.body == PathBody(filepath)
  {
    match extension
    case Xls | Xlsx =>
      Request(XlsxReader, Object(map["filepath" := String(filepath), "readmode" := String("table"), "sheet" := String("")]))
    case Doc | Pdf => Request(PdfxReader, PathBody(filepath))
    case Docx => Request(DocxReader, PathBody(filepath))
  }

  /** `document_extractor`: the reader's answer to that request. */
  function DocumentExtractor(filepath: Path, extension: Extension, reader: Request -> Result<string, Error>): Result<string, Error> {
    reader(ExtractorRequest(filepath, extension))
  }

  /** A converted `.doc` file is read as a PDF, under its new name. */
  lemma ConvertedDocReadAsPdf(filepath: Path, reply: Result<(), Error>)
    requires reply.Ok?
    ensures var p := DocumentConvertor(filepath, Doc, reply).value;
      ExtractorRequest(p, Doc) == ExtractorRequest(p, Pdf) == Request(PdfxReader, PathBody(WithExtension(filepath, "pdf")))
  {
  }

  // ------------------------------------------------------- strategy chain

  const ChainSeparator := "\n\tCaused by:\n\t\t"
  const ErrorSeparator := "\n\n\t"

  /** One error's chain, its messages joined. */
  function ChainLine(e: Error): string {
    Join(e.Chain(), ChainSeparator)
  }

  /** `format_errors`. */
  function FormatErrors(errors: seq<Error>): string {
    Join(seq(|errors|, i requires 0 <= i < |errors| => ChainLine(errors[i])), ErrorSeparator)
  }

  /** Every message of every error's chain appears in the formatted text. */
  lemma FormatErrorsMentionsAll(errors: seq<Error>, i: nat, k: nat)
    requires i < |errors| && k < |errors[i].Chain()|
    ensures exists pre, post :: FormatErrors(errors) == pre + errors[i].Chain()[k] + post
  {
    var lines := seq(|errors|, i requires 0 <= i < |errors| => ChainLine(errors[i]));
    JoinContainsPiece(lines, ErrorSeparator, i);
    var pre1, post1 :| FormatErrors(errors) == pre1 + lines[i] + post1;
    JoinContainsPiece(errors[i].Chain(), ChainSeparator, k);
    var pre2, post2 :| lines[i] == pre2 + errors[i].Chain()[k] + post2;
    Nested(pre1, pre2, errors[i].Chain()[k], post2, post1);
    assert FormatErrors(errors) == (pre1 + pre2) + errors[i].Chain()[k] + (post2 + post1);
  }

  /** A piece inside a piece of a text is a piece of the text. */
  lemma Nested(pre1: string, pre2: string, x: string, post2: string, post1: string)
    ensures pre1 + (pre2 + x + post2) + post1 == (pre1 + pre2) + x + (post2 + post1)
  {
  }

  /** One error without causes formats as its bare message. */
  lemma FormatSingleError(msg: string)
    ensures FormatErrors([Plain(msg)]) == msg
  {
    assert [Plain(msg)][0].Chain() == [msg];
  }

  const RegulationContext := "按照法律法规文件的模式来切片失败"
  const RecurrenceContext := "按照自定义递归规则的模式来进行切片失败"

  /** The two splitting strategies, with their inputs; `split` is the remote splitter's answer to a request. */
  datatype Strategy =
    | Regulation(content: string, threshold: nat)
    | Recurrence(content: string, split: Request -> Result<seq<string>, Error>)

  /** The request the recurrence strategy sends: the whole text under "content". */
  function SplitterRequest(content: string): (q: Request)
    ensures q.proxy == Splitter && q.body.Object? && q.body.fields.Keys == {"content"}
    ensures q.body.fields["content"] == String(content)
  {
    Request(Splitter, Object(map["content" := String(content)]))
  }

  /**
   * `splitting_recurrence_document`: the text is sent to the splitter, and
   * each slice of its answer becomes an article with empty chapter and type.
   */
  function SplittingRecurrenceDocument(content: string, split: Request -> Result<seq<string>, Error>): (r: Result<seq<Article>, Error>)
    ensures split(SplitterRequest(content)).Err? ==> r == Err(split(SplitterRequest(content)).error)
    ensures split(SplitterRequest(content)).Ok? ==> r.Ok? && |r.value| == |split(SplitterRequest(content)).value|
    ensures split(SplitterRequest(content)).Ok? ==> forall i :: 0 <= i < |r.value| ==>
      r.value[i] == Article(split(SplitterRequest(content)).value[i], "", "")
  {
    var texts :- split(SplitterRequest(content));
    Ok(seq(|texts|, i requires 0 <= i < |texts| => Article(texts[i], "", "")))
  }

  /** What each strategy's `call` yields. */
  function Outcome(s: Strategy): Result<seq<Article>, Error> {
    match s
    case Regulation(content, threshold) => WithContext(RegulationOutcome(content, threshold), RegulationContext)
    case Recurrence(content, split) => WithContext(SplittingRecurrenceDocument(content, split), RecurrenceContext)
  }

  /** `Callable::call` of either strategy. */
  method Call(s: Strategy) returns (r: Result<seq<Article>, Error>)
    ensures r == Outcome(s)
  {
    match s
    case Regulation(content, threshold) =>
      var inner := SplittingRegulationDocument(content, threshold);
      r := WithContext(inner, RegulationContext);
    case Recurrence(content, split) =>
      r := WithContext(SplittingRecurrenceDocument(content, split), RecurrenceContext);
  }

  /** The errors of a list of outcomes that all failed. */
  function ErrorsOf<T>(outcomes: seq<Result<T, Error>>): (errors: seq<Error>)
    requires forall i :: 0 <= i < |outcomes| ==> outcomes[i].Err?
    ensures |errors| == |outcomes|
    ensures forall i :: 0 <= i < |outcomes| ==> errors[i] == outcomes[i].error
  {
    seq(|outcomes|, i requires 0 <= i < |outcomes| && outcomes[i].Err? => outcomes[i].error)
  }

  /** What each method would yield if called. */
  function Outcomes<S, T>(methods: seq<S>, call: S -> Result<T, Error>): (r: seq<Result<T, Error>>)
    ensures |r| == |methods| && forall i :: 0 <= i < |methods| ==> r[i] == call(methods[i])
  {
    seq(|methods|, i requires 0 <= i < |methods| => call(methods[i]))
  }

  /**
   * `try_methods`: call the methods in order and return the first success;
   * `calls` counts the methods invoked. Only when every one fails is the
   * result an error, whose message lists all their chains. As in the source,
   * the loop knows nothing of what a method does beyond its result.
   */
  method TryMethods<S, T>(methods: seq<S>, call: S -> Result<T, Error>) returns (r: Result<T, Error>, calls: nat)
    ensures calls <= |methods|
    ensures r.Ok? <==> exists i :: 0 <= i < |methods| && call(methods[i]).Ok?
    ensures r.Ok? ==> 1 <= calls && r == call(methods[calls - 1])
    ensures r.Ok? ==> forall i :: 0 <= i < calls - 1 ==> call(methods[i]).Err?
    ensures r.Err? ==> calls == |methods| && r.error == Plain(FormatErrors(ErrorsOf(Outcomes(methods, call))))
  {
    var errors: seq<Error> := [];
    calls := 0;
    while calls < |methods|
      invariant calls <= |methods|
      invariant |errors| == calls
      invariant forall i :: 0 <= i < calls ==> call(methods[i]) == Err(errors[i])
    {
      var outcome := call(methods[calls]);
      calls := calls + 1;
      match outcome {
        case Ok(t) =>
          return Ok(t), calls;
        case Err(e) =>
          errors := errors + [e];
      }
    }
    assert ErrorsOf(Outcomes(methods, call)) == errors;
    r := Err(Plain(FormatErrors(errors)));
  }

  /** `splitting_plain_document`: the regulation chunker first, then the remote splitter. */
  method SplittingPlainDocument(content: string, threshold: nat, split: Request -> Result<seq<string>, Error>)
    returns (r: Result<seq<Article>, Error>)
    ensures RegulationOutcome(content, threshold).Ok? ==> r == RegulationOutcome(content, threshold)
    ensures RegulationOutcome(content, threshold).Err? && split(SplitterRequest(content)).Ok? ==>
      r == SplittingRecurrenceDocument(content, split)
    ensures RegulationOutcome(content, threshold).Err? && split(SplitterRequest(content)).Err? ==>
      r == Err(Plain(FormatErrors([RegulationOutcome(content, threshold).error.Context(RegulationContext),
                                   split(SplitterRequest(content)).error.Context(RecurrenceContext)])))
  {
    var methods := [Regulation(content, threshold), Recurrence(content, split)];
    ghost var slices := split(SplitterRequest(content));
    ghost var regulation := RegulationOutcome(content, threshold);
    assert Outcome(methods[0]) == WithContext(regulation, RegulationContext);
    assert Outcome(methods[1]) == WithContext(SplittingRecurrenceDocument(content, split), RecurrenceContext);
    var calls;
    r, calls := TryMethods(methods, Outcome);
    if regulation.Ok? {
      assert Outcome(methods[0]).Ok?;
      assert calls == 1;
    } else if slices.Ok? {
      assert Outcome(methods[1]).Ok?;
      assert calls == 2;
    } else {
      assert Outcome(methods[0]).Err? && Outcome(methods[1]).Err?;
      assert ErrorsOf(Outcomes(methods, Outcome)) ==
        [regulation.error.Context(RegulationContext), slices.error.Context(RecurrenceContext)];
    }
  }

  /** Sets every article's document type. */
  function Tagged(articles: seq<Article>, doctype: string): (r: seq<Article>)
    ensures |r| == |articles|
    ensures forall i :: 0 <= i < |r| ==>
      r[i].doctype == doctype && r[i].article == articles[i].article && r[i].chapter == articles[i].chapter
  {
    seq(|articles|, i requires 0 <= i < |articles| => articles[i].(doctype := doctype))
  }

  /** `splitting_table_document`: not implemented yet, always no articles. */
  function SplittingTableDocument(content: string): (r: Result<seq<Article>, Error>)
    ensures r == Ok([])
  {
    Ok([])
  }

  /** `document_splitting`: spreadsheets through the table splitter, the rest through the plain chain, each article tagged. */
  method DocumentSplitting(content: string, extension: Extension, threshold: nat, split: Request -> Result<seq<string>, Error>)
    returns (r: Result<seq<Article>, Error>)
    ensures extension == Xls || extension == Xlsx ==> r == Ok([])
    ensures r.Ok? ==> forall i :: 0 <= i < |r.value| ==>
      r.value[i].doctype == (if extension == Xls || extension == Xlsx then "table" else "plain")
    ensures extension != Xls && extension != Xlsx ==>
      (r.Ok? <==> RegulationOutcome(content, threshold).Ok? || split(SplitterRequest(content)).Ok?)
    ensures extension != Xls && extension != Xlsx && RegulationOutcome(content, threshold).Ok? ==>
      r == Ok(Tagged(RegulationOutcome(content, threshold).value, "plain"))
    ensures (extension != Xls && extension != Xlsx && RegulationOutcome(content, threshold).Err?
             && split(SplitterRequest(content)).Ok?) ==>
      r == Ok(Tagged(SplittingRecurrenceDocument(content, split).value, "plain"))
    ensures extension != Xls && extension != Xlsx && r.Err? ==>
      r.error == Plain(FormatErrors([RegulationOutcome(content, threshold).error.Context(RegulationContext),
                                     split(SplitterRequest(content)).error.Context(RecurrenceContext)]))
                 .Context("Failed to splitting plain document")
  {
    if extension == Xls || extension == Xlsx {
      var table := SplittingTableDocument(content);
      r := Ok(Tagged(table.value, "table"));
    } else {
      var plain := SplittingPlainDocument(content, threshold, split);
      if plain.Err? {
        return Err(plain.error.Context("Failed to splitting plain document"));
      }
      r := Ok(Tagged(plain.value, "plain"));
    }
  }

  // ----------------------------------------------------------- embedding

  /** The payload entries merged in for an article's point. */
  function ArticleFields(fields: map<string, Json>, a: Article, filepath: Path): map<string, Json> {
    Merge(Merge(fields, Serialize(a)), PathBody(filepath))
  }

  /** The keys an article's merge writes. */
  const ArticleKeys: set<string> := {"article", "chapter", "doctype", "filepath"}

  /** The article's three fields and the path overwrite their keys; every other key keeps its value. */
  lemma ArticleFieldsContent(fields: map<string, Json>, a: Article, filepath: Path, k: string)
    ensures k in ArticleFields(fields, a, filepath) <==> k in fields || k in ArticleKeys
    ensures k == "article" ==> ArticleFields(fields, a, filepath)[k] == String(a.article)
    ensures k == "chapter" ==> ArticleFields(fields, a, filepath)[k] == String(a.chapter)
    ensures k == "doctype" ==> ArticleFields(fields, a, filepath)[k] == String(a.doctype)
    ensures k == "filepath" ==> ArticleFields(fields, a, filepath)[k] == String(filepath)
    ensures k in fields && k !in ArticleKeys ==> ArticleFields(fields, a, filepath)[k] == fields[k]
  {
    var withArticle := Merge(fields, Serialize(a));
    var path := PathBody(filepath);
    assert withArticle.Keys == fields.Keys + {"article", "chapter", "doctype"};
    assert ArticleFields(fields, a, filepath) == Merge(withArticle, path);
    if k == "filepath" {
      MergeOverwrites(withArticle, path, k);
    } else {
      assert k !in path.fields;
      if k in withArticle {
        MergeKeepsOtherKeys(withArticle, path, k);
        if k in Serialize(a).fields {
          MergeOverwrites(fields, Serialize(a), k);
        } else {
          MergeKeepsOtherKeys(fields, Serialize(a), k);
        }
      }
    }
  }

  /** The payload after the first `n` articles have been merged in. */
  function FieldsAfter(fields: map<string, Json>, articles: seq<Article>, filepath: Path, n: nat): map<string, Json>
    requires n <= |articles|
  {
    if n == 0 then fields else ArticleFields(FieldsAfter(fields, articles, filepath, n - 1), articles[n - 1], filepath)
  }

  /** The embedding request for an article: the file name followed by the article text. */
  function EmbedRequest(filename: string, a: Article): Request {
    Request(Embedder, Object(map["content" := String(filename + a.article)]))
  }

  /** `format!("{:?}", filepath)`: the path in double quotes. */
  function DebugPath(filepath: Path): string {
    "\"" + filepath + "\""
  }

  function EmbeddingContext(filepath: Path): string {
    "Failed to call document embedding proxy of " + DebugPath(filepath)
  }

  /** The embedding requests of the first `n` articles succeed. */
  predicate EmbeddedUpTo(filename: string, articles: seq<Article>, embed: Request -> Result<seq<Float>, Error>, n: nat) {
    forall i :: 0 <= i < n && i < |articles| ==> embed(EmbedRequest(filename, articles[i])).Ok?
  }

  /** Every article's embedding request succeeds. */
  predicate AllEmbedded(filename: string, articles: seq<Article>, embed: Request -> Result<seq<Float>, Error>) {
    EmbeddedUpTo(filename, articles, embed, |articles|)
  }

  /** The point built for article `i`: id from the upload id and article text, the article's vector, the payload after it. */
  function PointFor(fields: map<string, Json>, fileuuid: string, filename: string, filepath: Path, articles: seq<Article>,
                    hash: string -> u64, embed: Request -> Result<seq<Float>, Error>, i: nat): Point<Json>
    requires i < |articles| && EmbeddedUpTo(filename, articles, embed, i + 1)
  {
    Point(hash(fileuuid + articles[i].article), embed(EmbedRequest(filename, articles[i])).value,
          Object(FieldsAfter(fields, articles, filepath, i + 1)))
  }

  /**
   * `document_embedding`: for each article in turn, merge it into the
   * document, then build its point; the first failed embedding stops the
   * whole run with no partial list. `hash` is the MurmurHash of the text and
   * `embed` the embedder's answer to a request.
   */
  method DocumentEmbedding(document: Document, fileuuid: string, filename: string, filepath: Path, articles: seq<Article>,
                           hash: string -> u64, embed: Request -> Result<seq<Float>, Error>)
    returns (r: Result<seq<Point<Json>>, Error>)
    modifies document
    ensures r.Ok? <==> AllEmbedded(filename, articles, embed)
    ensures r.Ok? ==> |r.value| == |articles|
    ensures r.Ok? ==> forall i :: 0 <= i < |articles| ==>
      r.value[i] == PointFor(old(document.fields), fileuuid, filename, filepath, articles, hash, embed, i)
    ensures r.Ok? ==> document.fields == FieldsAfter(old(document.fields), articles, filepath, |articles|)
    ensures r.Err? ==>
      (exists i :: 0 <= i < |articles| && EmbeddedUpTo(filename, articles, embed, i)
         && embed(EmbedRequest(filename, articles[i])).Err?
         && r.error == embed(EmbedRequest(filename, articles[i])).error.Context(EmbeddingContext(filepath)))
  {
    ghost var base := document.fields;
    var points: seq<Point<Json>> := [];
    var i := 0;
    while i < |articles|
      invariant 0 <= i <= |articles|
      invariant document.fields == FieldsAfter(base, articles, filepath, i)
      invariant EmbeddedUpTo(filename, articles, embed, i)
      invariant |points| == i
      invariant forall j :: 0 <= j < i ==> points[j] == PointFor(base, fileuuid, filename, filepath, articles, hash, embed, j)
    {
      var article := articles[i];
      document.Update(Serialize(article));
      document.Update(PathBody(filepath));
      assert document.fields == FieldsAfter(base, articles, filepath, i + 1);
      var id := hash(fileuuid + article.article);
      var vector := embed(EmbedRequest(filename, article));
      if vector.Err? {
        return Err(vector.error.Context(EmbeddingContext(filepath)));
      }
      assert EmbeddedUpTo(filename, articles, embed, i + 1);
      var point := Point(id, vector.value, document.Value());
      assert point == PointFor(base, fileuuid, filename, filepath, articles, hash, embed, i);
      ghost var prev := points;
      points := points + [point];
      forall j | 0 <= j < i + 1
        ensures points[j] == PointFor(base, fileuuid, filename, filepath, articles, hash, embed, j)
      {
        if j < i {
          assert points[j] == prev[j];
        }
      }
      i := i + 1;
    }
    r := Ok(points);
  }

  /** Two articles with the same text in the same upload get the same point id; the hash sees only the id and the text. */
  lemma SameTextSameId(fields: map<string, Json>, fileuuid: string, filename: string, filepath: Path, articles: seq<Article>,
                       hash: string -> u64, embed: Request -> Result<seq<Float>, Error>, i: nat, j: nat)
    requires i < |articles| && j < |articles| && articles[i].article == articles[j].article
    requires EmbeddedUpTo(filename, articles, embed, i + 1) && EmbeddedUpTo(filename, articles, embed, j + 1)
    ensures PointFor(fields, fileuuid, filename, filepath, articles, hash, embed, i).id
         == PointFor(fields, fileuuid, filename, filepath, articles, hash, embed, j).id
  {
  }

  /** Point `i`'s payload carries article `i`'s own fields and the file path, whatever earlier articles wrote. */
  lemma PayloadCarriesArticle(fields: map<string, Json>, articles: seq<Article>, filepath: Path, i: nat)
    requires i < |articles|
    ensures var p := FieldsAfter(fields, articles, filepath, i + 1);
      p["article"] == String(articles[i].article) && p["chapter"] == String(articles[i].chapter)
      && p["doctype"] == String(articles[i].doctype) && p["filepath"] == String(filepath)
  {
    var p := FieldsAfter(fields, articles, filepath, i);
    ArticleFieldsContent(p, articles[i], filepath, "article");
    ArticleFieldsContent(p, articles[i], filepath, "chapter");
    ArticleFieldsContent(p, articles[i], filepath, "doctype");
    ArticleFieldsContent(p, articles[i], filepath, "filepath");
  }

  /** One article's merge keeps a key it does not write. */
  lemma KeepsOtherKey(prev: map<string, Json>, a: Article, filepath: Path, k: string)
    requires k in prev && k != "article" && k != "chapter" && k != "doctype" && k != "filepath"
    ensures k in ArticleFields(prev, a, filepath) && ArticleFields(prev, a, filepath)[k] == prev[k]
  {
    ArticleFieldsContent(prev, a, filepath, k);
  }

  /** Keys other than the four an article writes keep their value from the initial payload. */
  lemma {:induction false} OtherKeysUntouched(fields: map<string, Json>, articles: seq<Article>, filepath: Path, n: nat, k: string)
    requires n <= |articles| && k in fields && k != "article" && k != "chapter" && k != "doctype" && k != "filepath"
    ensures k in FieldsAfter(fields, articles, filepath, n) && FieldsAfter(fields, articles, filepath, n)[k] == fields[k]
  {
    if n > 0 {
      OtherKeysUntouched(fields, articles, filepath, n - 1, k);
      KeepsOtherKey(FieldsAfter(fields, articles, filepath, n - 1), articles[n - 1], filepath, k);
    }
  }
}
